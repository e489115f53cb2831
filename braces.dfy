/** Brace templates in tokens: the `{.*}` search and the `braceexpand`
    library it hands the match to. */
module Braces {

  import opened Wrappers

  /** `braceexpand`, a library outside this model: any function whose
      result is never empty. */
  type Expander = f: string -> seq<string> | forall s :: |f(s)| > 0
    witness (s: string) => [s]

  /** `re.search(r'\{.*\}', s)`: the leftmost `{` that some `}` follows,
      and (greedy) the last `}`.  Tokens hold no newline, so `.` matches
      every character in them. */
  function BraceSpan(s: string): (r: Option<(nat, nat)>)
    ensures r.None? <==> !exists i, j :: 0 <= i < j < |s| && s[i] == '{' && s[j] == '}'
    ensures r.Some? ==> r.value.0 < r.value.1 < |s|
                        && s[r.value.0] == '{' && s[r.value.1] == '}'
                        && '{' !in s[..r.value.0] && '}' !in s[r.value.1 + 1..]
  {
    var i := FirstIndex(s, '{');
    var j := LastIndex(s, '}');
    if i.Some? && j.Some? && i.value < j.value then Some((i.value, j.value)) else None
  }

  function FirstIndex(s: string, c: char): (r: Option<nat>)
    ensures r.None? <==> c !in s
    ensures r.Some? ==> r.value < |s| && s[r.value] == c && c !in s[..r.value]
    ensures forall k :: 0 <= k < |s| && s[k] == c ==> r.Some? && r.value <= k
  {
    if |s| == 0 then None
    else if s[0] == c then Some(0)
    else
      match FirstIndex(s[1..], c)
      case None => assert s == [s[0]] + s[1..]; None
      case Some(k) => assert s[..k + 1] == [s[0]] + s[1..][..k]; Some(k + 1)
  }

  function LastIndex(s: string, c: char): (r: Option<nat>)
    ensures r.None? <==> c !in s
    ensures r.Some? ==> r.value < |s| && s[r.value] == c && c !in s[r.value + 1..]
    ensures forall k :: 0 <= k < |s| && s[k] == c ==> r.Some? && k <= r.value
  {
    if |s| == 0 then None
    else if s[|s| - 1] == c then Some(|s| - 1)
    else
      match LastIndex(s[..|s| - 1], c)
      case None => assert s == s[..|s| - 1] + [s[|s| - 1]]; None
      case Some(k) => assert s[k + 1..] == s[..|s| - 1][k + 1..] + [s[|s| - 1]]; Some(k)
  }

  /** The token with the matched span replaced by a single `*`. */
  function Wildcarded(s: string, i: nat, j: nat): (r: string)
    requires i <= j < |s|
    ensures |r| == |s| - (j - i)
    ensures r[i] == '*' && r[..i] == s[..i] && r[i + 1..] == s[j + 1..]
  {
    s[..i] + "*" + s[j + 1..]
  }
}
