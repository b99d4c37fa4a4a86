/**
 * The regular-expression rewrites that both the background script and the
 * dashboard apply to URLs: /^https?:\/\// and /^www\./ replaced by nothing,
 * and split('/')[0]. Each is case-sensitive.
 */
module UrlText {
  import opened Text

  /** `s.replace(/^https?:\/\//, "")`: one leading "http://" or "https://" removed. */
  function StripScheme(s: string): (r: string)
    ensures EndsWith(s, r)
  {
    if StartsWith(s, "https://") then s[8..]
    else if StartsWith(s, "http://") then s[7..]
    else s
  }

  /** `s.replace(/^www\./, "")`: one leading "www." removed. */
  function StripWww(s: string): (r: string)
    ensures EndsWith(s, r)
  {
    if StartsWith(s, "www.") then s[4..] else s
  }

  /** `s.split("/")[0]`: the text before the first '/', or all of `s`. */
  function BeforeSlash(s: string): (r: string)
    ensures '/' !in r
    ensures StartsWith(s, r)
    ensures r == s || s[|r|] == '/'
  {
    if s == [] || s[0] == '/' then []
    else [s[0]] + BeforeSlash(s[1..])
  }

  /** The text before the first '/' of `a + "/" + b` is `a` when `a` has no '/'. */
  lemma {:induction false} BeforeSlashOfSlashed(a: string, b: string)
    requires '/' !in a
    ensures BeforeSlash(a + "/" + b) == a
  {
    if a != [] {
      assert (a + "/" + b)[1..] == a[1..] + "/" + b;
      BeforeSlashOfSlashed(a[1..], b);
      assert [a[0]] + a[1..] == a;
    }
  }
}
