/** Small shared vocabulary: optional values, results, and the few PHP
    value semantics (truthiness, substring search, first-match search) that
    the rest of the model relies on. */
module Util {

  datatype Option<T> = None | Some(value: T)

  datatype Result<T, E> = Ok(value: T) | Err(error: E)

  /** One run of an external command: its exit code and the lines it printed. */
  datatype ExecResult = ExecResult(code: int, output: seq<string>)

  /** PHP truthiness of a string: only "" and "0" are false. */
  predicate Truthy(s: string)
  {
    s != "" && s != "0"
  }

  /** PHP `empty()` on an optional string: unset, "" and "0" are empty. */
  predicate EmptyValue(s: Option<string>)
  {
    s.None? || !Truthy(s.value)
  }

  /** `strpos($haystack, $needle) !== false`: the needle occurs somewhere. */
  predicate Contains(haystack: string, needle: string)
    decreases |haystack|
  {
    needle <= haystack || (|haystack| > 0 && Contains(haystack[1..], needle))
  }

  lemma {:induction false} ContainsAt(haystack: string, needle: string, i: nat)
    requires i + |needle| <= |haystack| && haystack[i..i + |needle|] == needle
    ensures Contains(haystack, needle)
    decreases i
  {
    if i == 0 {
      assert needle <= haystack;
    } else {
      assert haystack[1..][i - 1..i - 1 + |needle|] == needle;
      ContainsAt(haystack[1..], needle, i - 1);
    }
  }

  /** The first line of a command's output, or "" when it printed nothing
      (PHP reads the missing `$out[0]` as null, which concatenates as ""). */
  function FirstLine(output: seq<string>): string
  {
    if |output| > 0 then output[0] else ""
  }

  /** Index of the first element satisfying `p`: the early-return `foreach`
      searches of the source. */
  function FirstIndex<T>(s: seq<T>, p: T -> bool): (r: Option<nat>)
    ensures r.Some? ==> r.value < |s| && p(s[r.value])
    ensures r.Some? ==> forall j :: 0 <= j < r.value ==> !p(s[j])
    ensures r.None? <==> forall j :: 0 <= j < |s| ==> !p(s[j])
  {
    if |s| == 0 then None
    else if p(s[0]) then Some(0)
    else match FirstIndex(s[1..], p)
      case None => None
      case Some(k) => Some(k + 1)
  }

  /** Index of the first `true` at or after `i`: a retry loop that stops at
      the first attempt that succeeds. */
  function FirstTrue(v: seq<bool>, i: nat): Option<nat>
    decreases |v| - i
  {
    if i >= |v| then None
    else if v[i] then Some(i)
    else FirstTrue(v, i + 1)
  }

  /** Searching on from a point before which nothing succeeded finds the
      first success overall, and finds nothing only when nothing succeeds. */
  lemma {:induction false} FirstTrueFrom(v: seq<bool>, i: nat)
    requires i <= |v| && forall j :: 0 <= j < i ==> !v[j]
    ensures var r := FirstTrue(v, i);
      && (r.Some? ==> (r.value < |v| && v[r.value] && forall j :: 0 <= j < r.value ==> !v[j]))
      && (r.None? <==> forall j :: 0 <= j < |v| ==> !v[j])
    decreases |v| - i
  {
    if i < |v| && !v[i] {
      FirstTrueFrom(v, i + 1);
    }
  }

  /** A success at `k` with none before it is what the search finds. */
  lemma FirstTrueAt(v: seq<bool>, k: nat)
    requires k < |v| && v[k] && forall j :: 0 <= j < k ==> !v[j]
    ensures FirstTrue(v, 0) == Some(k)
  {
    FirstTrueFrom(v, 0);
  }
}
