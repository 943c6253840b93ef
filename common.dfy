/** Small shared vocabulary: optional values, PHP truthiness of strings, and implode. */
module Common {

  datatype Option<+T> = None | Some(value: T) {
    /** PHP's `??`: the value when present, the default otherwise. */
    function GetOr(default: T): T {
      match this
      case Some(v) => v
      case None => default
    }
  }

  /** A PHP string is falsy exactly when it is "" or "0". */
  predicate Truthy(s: string) {
    s != "" && s != "0"
  }

  /** A PHP `?string` is truthy when it is present and truthy. */
  predicate TruthyOpt(s: Option<string>) {
    s.Some? && Truthy(s.value)
  }

  /** PHP `implode(sep, parts)`. */
  function Implode(parts: seq<string>, sep: string): (r: string)
    ensures parts == [] ==> r == ""
    ensures |parts| == 1 ==> r == parts[0]
    ensures |r| >= (if parts == [] then 0 else (|parts| - 1) * |sep|)
  {
    if parts == [] then ""
    else if |parts| == 1 then parts[0]
    else parts[0] + sep + Implode(parts[1..], sep)
  }

  /**
   * The ends of an implode: with two parts or more, the first part followed by the separator
   * opens the result, and the last part always closes it.
   */
  lemma {:induction false} ImplodeEnds(parts: seq<string>, sep: string)
    ensures |parts| >= 2 ==> parts[0] + sep <= Implode(parts, sep)
    ensures parts != [] ==> (|parts[|parts| - 1]| <= |Implode(parts, sep)| &&
                             Implode(parts, sep)[|Implode(parts, sep)| - |parts[|parts| - 1]|..] == parts[|parts| - 1])
  {
    if |parts| >= 2 {
      ImplodeEnds(parts[1..], sep);
      assert parts[1..][|parts[1..]| - 1] == parts[|parts| - 1];
      assert Implode(parts, sep) == (parts[0] + sep) + Implode(parts[1..], sep);
      SuffixOfAppend(parts[0] + sep, Implode(parts[1..], sep), |parts[|parts| - 1]|);
    }
  }

  /** A suffix of the second part of a concatenation is a suffix of the whole. */
  lemma SuffixOfAppend(a: string, b: string, n: nat)
    requires n <= |b|
    ensures (a + b)[|a + b| - n..] == b[|b| - n..]
  {
  }

  /** Joining a piece in front of at least one more puts `sep` between them. */
  lemma ImplodeCons(head: string, tail: seq<string>, sep: string)
    requires tail != []
    ensures Implode([head] + tail, sep) == head + sep + Implode(tail, sep)
  {
    assert ([head] + tail)[1..] == tail;
  }

  /** `sep` occurs in `s` starting at position j. */
  predicate OccursAt(s: string, sep: string, j: int) {
    0 <= j && j + |sep| <= |s| && s[j..j + |sep|] == sep
  }

  /** `str_contains(s, sep)`. */
  ghost predicate Contains(s: string, sep: string) {
    exists j :: OccursAt(s, sep, j)
  }

  /** `strpos(s, sep, from)`: the first position from `from` on where `sep` occurs, `None` when there is none. */
  function Find(s: string, sep: string, from: nat): (r: Option<nat>)
    ensures r.Some? ==> from <= r.value && OccursAt(s, sep, r.value)
    ensures r.Some? ==> forall j :: from <= j < r.value ==> !OccursAt(s, sep, j)
    ensures r.None? ==> forall j :: from <= j ==> !OccursAt(s, sep, j)
    decreases |s| - from
  {
    if from + |sep| > |s| then None
    else if OccursAt(s, sep, from) then Some(from)
    else Find(s, sep, from + 1)
  }

  /**
   * PHP `explode(sep, s)`: the pieces between the occurrences of `sep`, taken from the left;
   * a string without `sep` is one piece.
   */
  function Explode(s: string, sep: string): (r: seq<string>)
    requires sep != ""
    ensures |r| >= 1
    ensures !Contains(s, sep) ==> r == [s]
    decreases |s|
  {
    match Find(s, sep, 0)
    case None => [s]
    case Some(i) => [s[..i]] + Explode(s[i + |sep|..], sep)
  }

  /** Joining the pieces with `sep` gives the string back. */
  lemma {:induction false} ExplodeJoin(s: string, sep: string)
    requires sep != ""
    ensures Implode(Explode(s, sep), sep) == s
    decreases |s|
  {
    match Find(s, sep, 0)
    case None =>
    case Some(i) =>
      ExplodeJoin(s[i + |sep|..], sep);
      ImplodeCons(s[..i], Explode(s[i + |sep|..], sep), sep);
      SplitAround(s, sep, i);
  }

  /** A string is the part before an occurrence, the occurrence, and the part after. */
  lemma SplitAround(s: string, sep: string, i: int)
    requires OccursAt(s, sep, i)
    ensures s == s[..i] + sep + s[i + |sep|..]
  {
    assert s == s[..i] + s[i..i + |sep|] + s[i + |sep|..];
  }

  /** No piece contains `sep`. */
  lemma {:induction false} ExplodePieces(s: string, sep: string)
    requires sep != ""
    ensures forall k :: 0 <= k < |Explode(s, sep)| ==> !Contains(Explode(s, sep)[k], sep)
    decreases |s|
  {
    match Find(s, sep, 0)
    case None =>
    case Some(i) =>
      ExplodePieces(s[i + |sep|..], sep);
      PrefixFree(s, sep, i);
  }

  /** A prefix that ends before the first occurrence of `sep` does not contain it. */
  lemma PrefixFree(s: string, sep: string, i: nat)
    requires sep != "" && i <= |s| && forall j :: 0 <= j < i ==> !OccursAt(s, sep, j)
    ensures forall j :: !OccursAt(s[..i], sep, j)
  {
    forall j | 0 <= j && j + |sep| <= i
      ensures !OccursAt(s[..i], sep, j)
    {
      assert !OccursAt(s, sep, j);
      assert s[..i][j..j + |sep|] == s[j..j + |sep|];
    }
  }
}
