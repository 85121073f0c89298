/** Identifiers. A `java.util.UUID` is modelled as a natural number: the services only compare,
    store and print UUIDs, and freshly generated ones come from a counter in each repository
    model. `UuidText` plays the part of `UUID.toString()`. */
module Ids {
  import Text

  type Uuid = nat

  function UuidText(u: Uuid): (s: string)
    ensures 1 <= |s| && Text.AllDigits(s)
  {
    Text.NatToDecimal(u)
  }

  /** `toString` is injective, so string keys and header values built from ids identify them. */
  lemma UuidTextInjective(a: Uuid, b: Uuid)
    ensures UuidText(a) == UuidText(b) <==> a == b
  {
    Text.NatToDecimalInjective(a, b);
  }

  /** A user id's text has no surrounding whitespace, so `trim()` leaves it unchanged. */
  lemma UuidTextIsTrimmed(u: Uuid)
    ensures Text.Trim(UuidText(u)) == UuidText(u)
  {
    Text.DigitsAreTrimmed(UuidText(u));
  }

  /** A request header that should carry a UUID: absent, present but rejected by
      `UUID.fromString` (which throws IllegalArgumentException), or present and parsed. */
  datatype UuidHeader = Absent | Malformed(text: string) | Parsed(id: Uuid)
}

/** Spring Data repositories are modelled as sequences of entities in `findAll` order, each
    entity carrying its own id (`key`); `findById` finds the first entity with that id, `save`
    replaces it or appends a new one, and `delete` removes it. */
module Repo {
  import opened Wrappers
  import opened Ids

  function IndexOfKey<T>(s: seq<T>, key: T -> Uuid, k: Uuid): (r: Option<nat>)
    ensures r.Some? ==> r.value < |s| && key(s[r.value]) == k
                        && forall j :: 0 <= j < r.value ==> key(s[j]) != k
    ensures r.None? <==> forall j :: 0 <= j < |s| ==> key(s[j]) != k
    decreases |s|
  {
    if s == [] then None
    else if key(s[0]) == k then Some(0)
    else match IndexOfKey(s[1..], key, k)
      case None => None
      case Some(i) => Some(i + 1)
  }

  function FindByKey<T>(s: seq<T>, key: T -> Uuid, k: Uuid): (r: Option<T>)
    ensures r.Some? <==> exists j :: 0 <= j < |s| && key(s[j]) == k
    ensures r.Some? ==> r.value in s && key(r.value) == k
  {
    match IndexOfKey(s, key, k)
    case None => None
    case Some(i) => Some(s[i])
  }

  /** `save`: the entity replaces the first one with its id, or is appended. */
  function Upsert<T(!new)>(s: seq<T>, x: T, key: T -> Uuid): (r: seq<T>)
    ensures |r| == |s| || |r| == |s| + 1
    ensures FindByKey(r, key, key(x)) == Some(x)
    ensures forall y :: y in r ==> y == x || y in s
    ensures forall j :: 0 <= j < |s| && key(s[j]) != key(x) ==> s[j] in r
    ensures forall k :: k != key(x) ==> FindByKey(r, key, k) == FindByKey(s, key, k)
    ensures FindByKey(s, key, key(x)).None? ==> r == s + [x]
  {
    match IndexOfKey(s, key, key(x))
    case None =>
      assert forall k :: k != key(x) ==> IndexOfKey(s + [x], key, k) == IndexOfKey(s, key, k) by {
        forall k | k != key(x) ensures IndexOfKey(s + [x], key, k) == IndexOfKey(s, key, k) {
          IndexOfKeyAppend(s, x, key, k);
        }
      }
      IndexOfKeyAppend(s, x, key, key(x));
      s + [x]
    case Some(i) =>
      assert forall k :: k != key(x) ==> IndexOfKey(s[i := x], key, k) == IndexOfKey(s, key, k) by {
        forall k | k != key(x) ensures IndexOfKey(s[i := x], key, k) == IndexOfKey(s, key, k) {
          IndexOfKeyUpdate(s, i, x, key, k);
        }
      }
      IndexOfKeyFirst(s[i := x], key, key(x), i);
      assert forall j :: 0 <= j < |s| && j != i ==> s[i := x][j] == s[j];
      s[i := x]
  }

  /** Saving the same entity twice keeps only the second save. */
  lemma UpsertOverwrite<T(!new)>(s: seq<T>, a: T, b: T, key: T -> Uuid)
    requires key(a) == key(b)
    ensures Upsert(Upsert(s, a, key), b, key) == Upsert(s, b, key)
  {
    match IndexOfKey(s, key, key(a))
    case None =>
      IndexOfKeyAppend(s, a, key, key(b));
      assert (s + [a])[|s| := b] == s + [b];
    case Some(i) =>
      IndexOfKeyFirst(s[i := a], key, key(b), i);
      assert s[i := a][i := b] == s[i := b];
  }

  lemma {:induction false} IndexOfKeyAppend<T(!new)>(s: seq<T>, x: T, key: T -> Uuid, k: Uuid)
    requires k != key(x) || IndexOfKey(s, key, k).None?
    ensures IndexOfKey(s + [x], key, k) ==
              if k == key(x) then Some(|s|) else IndexOfKey(s, key, k)
    decreases |s|
  {
    if s != [] {
      assert (s + [x])[1..] == s[1..] + [x];
      IndexOfKeyAppend(s[1..], x, key, k);
    }
  }

  lemma {:induction false} IndexOfKeyFirst<T>(s: seq<T>, key: T -> Uuid, k: Uuid, i: nat)
    requires i < |s| && key(s[i]) == k && forall j :: 0 <= j < i ==> key(s[j]) != k
    ensures IndexOfKey(s, key, k) == Some(i)
    decreases |s|
  {
    if i > 0 {
      IndexOfKeyFirst(s[1..], key, k, i - 1);
    }
  }

  lemma {:induction false} IndexOfKeyUpdate<T>(s: seq<T>, i: nat, x: T, key: T -> Uuid, k: Uuid)
    requires i < |s| && key(s[i]) == key(x) && k != key(x)
    ensures IndexOfKey(s[i := x], key, k) == IndexOfKey(s, key, k)
    decreases |s|
  {
    if i > 0 {
      assert s[i := x][1..] == s[1..][i - 1 := x];
      IndexOfKeyUpdate(s[1..], i - 1, x, key, k);
    }
  }

  /** `delete`: every entity with id `k` is gone, every other one stays, in order. */
  function RemoveKey<T(!new)>(s: seq<T>, key: T -> Uuid, k: Uuid): (r: seq<T>)
    ensures |r| <= |s|
    ensures forall y :: y in r <==> y in s && key(y) != k
    ensures FindByKey(r, key, k) == None
    decreases |s|
  {
    if s == [] then []
    else if key(s[0]) == k then RemoveKey(s[1..], key, k)
    else [s[0]] + RemoveKey(s[1..], key, k)
  }

  /** The sequence without repeated values, keeping each value's first occurrence: what a
      `HashSet` keeps of a stream of value-equal objects (iteration order taken as insertion
      order). */
  function Distinct<T(==,!new)>(s: seq<T>): (r: seq<T>)
    ensures |r| <= |s|
    ensures forall x :: x in r <==> x in s
    ensures forall i, j :: 0 <= i < j < |r| ==> r[i] != r[j]
    ensures s != [] ==> r != [] && r[0] == s[0]
    decreases |s|
  {
    if s == [] then []
    else
      var r := Distinct(s[..|s| - 1]);
      assert forall x :: x in s <==> x in s[..|s| - 1] || x == s[|s| - 1] by {
        assert s == s[..|s| - 1] + [s[|s| - 1]];
      }
      if s[|s| - 1] in r then r else r + [s[|s| - 1]]
  }

  /** A sequence with a repeated value loses at least one element to `Distinct`. */
  lemma {:induction false} DistinctShrinks<T(!new)>(s: seq<T>, i: nat, j: nat)
    requires i < j < |s| && s[i] == s[j]
    ensures |Distinct(s)| < |s|
    decreases |s|
  {
    var prefix := s[..|s| - 1];
    if j < |s| - 1 {
      DistinctShrinks(prefix, i, j);
    } else {
      assert s[j] in prefix by { assert prefix[i] == s[i]; }
    }
  }

}
