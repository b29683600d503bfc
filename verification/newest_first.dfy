/**
 * Result ordering shared by the idea and comment queries: `ORDER BY created_on DESC`.
 * A query result is any arrangement of the selected rows whose timestamps do not
 * increase; rows with equal timestamps may come in either order, as in SQL.
 */
module NewestFirst {

  /** Timestamps never increase from the front of `s` to its back. */
  ghost predicate Sorted<T>(s: seq<T>, time: T -> int)
  {
    forall i, j :: 0 <= i < j < |s| ==> time(s[i]) >= time(s[j])
  }

  /** Places `x` in front of the first element of `s` that is not newer than it. */
  function Insert<T>(x: T, s: seq<T>, time: T -> int): (r: seq<T>)
    ensures multiset(r) == multiset(s) + multiset{x}
  {
    if s == [] || time(x) >= time(s[0]) then
      [x] + s
    else
      assert s == [s[0]] + s[1..];
      [s[0]] + Insert(x, s[1..], time)
  }

  /** Inserting into a newest-first sequence keeps it newest-first. */
  lemma {:induction false} InsertSorted<T>(x: T, s: seq<T>, time: T -> int)
    requires Sorted(s, time)
    ensures Sorted(Insert(x, s, time), time)
  {
    if s != [] && time(x) < time(s[0]) {
      var rest := Insert(x, s[1..], time);
      InsertSorted(x, s[1..], time);
      var r := [s[0]] + rest;
      assert s == [s[0]] + s[1..];
      forall j | 0 < j < |r| ensures time(s[0]) >= time(r[j]) {
        assert r[j] == rest[j - 1];
        assert rest[j - 1] in multiset(rest);
        if rest[j - 1] != x {
          assert rest[j - 1] in multiset(s[1..]);
          assert rest[j - 1] in s[1..];
        }
      }
    }
  }
}
