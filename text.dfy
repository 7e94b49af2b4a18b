/** String helpers: Python slicing `s[:n]` and the 50-character preview rule
    used by the message serializer, the conversation serializer's last-message
    summary and both admin list pages. */
module Text {

  /** Number of characters a preview keeps before the ellipsis. */
  const PreviewLimit: nat := 50

  const Ellipsis: string := "..."

  function Min(a: int, b: int): int {
    if a <= b then a else b
  }

  /** Python's `s[:n]` for a non-negative `n`: the first `n` characters, or the
      whole string when it is shorter. */
  function Truncate(s: string, n: nat): (r: string)
    ensures |r| == Min(n, |s|)
    ensures r == s[..|r|]
  {
    if |s| <= n then s else s[..n]
  }

  /** `s[:50] + '...' if len(s) > 50 else s`. */
  function Preview(s: string): (r: string)
    ensures |s| <= PreviewLimit ==> r == s
    ensures |s| > PreviewLimit ==> |r| == PreviewLimit + |Ellipsis| && r[PreviewLimit..] == Ellipsis
    ensures Min(PreviewLimit, |s|) <= |r| <= PreviewLimit + |Ellipsis|
    ensures r[..Min(PreviewLimit, |s|)] == Truncate(s, PreviewLimit)
  {
    if |s| > PreviewLimit then s[..PreviewLimit] + Ellipsis else s
  }

  /** A preview is its own preview: previewing a second time changes nothing. */
  lemma PreviewIdempotent(s: string)
    ensures Preview(Preview(s)) == Preview(s)
  {
  }

  /** Only the first 50 characters of a long text are visible: two long texts
      that agree on them have the same preview. */
  lemma PreviewForgetsTail(s: string, t: string)
    requires |s| > PreviewLimit && |t| > PreviewLimit
    requires s[..PreviewLimit] == t[..PreviewLimit]
    ensures Preview(s) == Preview(t)
  {
  }
}
