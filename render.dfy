/** Template helpers of the bundled example app (utils/render.go): `Dict`
    builds a map from alternating keys and values, and a documentation
    heading's anchor is its slug. */
module Render {
  import opened Results
  import opened GoStrings

  /** A template argument: a Go string, or a value of any other dynamic
      type, told apart by an arbitrary payload. */
  datatype Value = Str(s: string) | NonString(payload: int)

  datatype DictError = OddArgumentCount | KeyNotString

  /** The key of pair `p`: argument `2p`. */
  function KeyAt(values: seq<Value>, p: nat): Value
    requires 2 * p + 1 < |values|
  {
    values[2 * p]
  }

  /** The value of pair `p`: argument `2p + 1`. */
  function ValueAt(values: seq<Value>, p: nat): Value
    requires 2 * p + 1 < |values|
  {
    values[2 * p + 1]
  }

  /** The keys of the first `n` pairs are strings. */
  ghost predicate KeysAreStrings(values: seq<Value>, n: nat)
    requires 2 * n <= |values|
  {
    forall p: nat :: p < n ==> KeyAt(values, p).Str?
  }

  /** The map the first `n` pairs denote, built left to right so that a
      later duplicate key overwrites an earlier one. */
  function DictOf(values: seq<Value>, n: nat): (m: map<string, Value>)
    requires 2 * n <= |values| && KeysAreStrings(values, n)
    ensures |m| <= n
  {
    if n == 0 then map[]
    else DictOf(values, n - 1)[KeyAt(values, n - 1).s := ValueAt(values, n - 1)]
  }

  /** `Dict`: an odd number of arguments, or a key that is not a string, is
      an error; otherwise the map of the pairs. */
  method Dict(values: seq<Value>) returns (r: Result<map<string, Value>, DictError>)
    ensures |values| % 2 != 0 <==> r == Err(OddArgumentCount)
    ensures |values| % 2 == 0 ==>
      (r == Err(KeyNotString) <==> exists p: nat :: p < |values| / 2 && !KeyAt(values, p).Str?)
    ensures r.Ok? ==> 2 * (|values| / 2) == |values| && KeysAreStrings(values, |values| / 2)
                      && r.value == DictOf(values, |values| / 2)
  {
    if |values| % 2 != 0 {
      return Err(OddArgumentCount);
    }
    var dict := map[];
    var i := 0;
    ghost var pairs := 0;
    while i < |values|
      invariant i == 2 * pairs && 0 <= pairs <= |values| / 2
      invariant KeysAreStrings(values, pairs)
      invariant dict == DictOf(values, pairs)
    {
      if !values[i].Str? {
        assert values[i] == KeyAt(values, pairs);
        return Err(KeyNotString);
      }
      dict := dict[values[i].s := values[i + 1]];
      i := i + 2;
      pairs := pairs + 1;
    }
    return Ok(dict);
  }

  /** The keys of the map are exactly the keys of the pairs. */
  lemma {:induction false} DictKeys(values: seq<Value>, n: nat)
    requires 2 * n <= |values| && KeysAreStrings(values, n)
    ensures forall k :: k in DictOf(values, n) <==> exists p: nat :: p < n && KeyAt(values, p) == Str(k)
  {
    if n != 0 {
      DictKeys(values, n - 1);
    }
  }

  /** Each key maps to the value after its last occurrence. */
  lemma {:induction false} DictLastWins(values: seq<Value>, n: nat, p: nat)
    requires 2 * n <= |values| && KeysAreStrings(values, n)
    requires p < n
    requires forall q: nat :: p < q < n ==> KeyAt(values, q) != KeyAt(values, p)
    ensures KeyAt(values, p).s in DictOf(values, n) && DictOf(values, n)[KeyAt(values, p).s] == ValueAt(values, p)
  {
    if p != n - 1 {
      DictLastWins(values, n - 1, p);
    }
  }

  /** No key occurs twice among the first `n` pairs. */
  ghost predicate DistinctKeys(values: seq<Value>, n: nat)
    requires 2 * n <= |values|
  {
    forall p: nat, q: nat :: p < q < n ==> KeyAt(values, p) != KeyAt(values, q)
  }

  /** With distinct keys the map has one entry per pair. */
  lemma {:induction false} DictSizeWithDistinctKeys(values: seq<Value>, n: nat)
    requires 2 * n <= |values| && KeysAreStrings(values, n) && DistinctKeys(values, n)
    ensures |DictOf(values, n)| == n
  {
    if n != 0 {
      DictSizeWithDistinctKeys(values, n - 1);
      DictKeys(values, n - 1);
      assert KeyAt(values, n - 1).s !in DictOf(values, n - 1);
    }
  }

  /** The anchor of a documentation heading: lower-cased, spaces replaced by
      hyphens. */
  function Slug(text: string): (slug: string)
    ensures |slug| == |text|
    ensures forall i :: 0 <= i < |text| ==> slug[i] == (if LowerRune(text[i]) == ' ' then '-' else LowerRune(text[i]))
    ensures forall i :: 0 <= i < |slug| ==> slug[i] != ' ' && !('A' <= slug[i] <= 'Z')
  {
    ReplaceRune(ToLower(text), ' ', '-')
  }

  /** A slug is its own slug. */
  lemma SlugIdempotent(text: string)
    ensures Slug(Slug(text)) == Slug(text)
  {
    var s := Slug(text);
    assert forall i :: 0 <= i < |s| ==> LowerRune(s[i]) == s[i];
  }
}
