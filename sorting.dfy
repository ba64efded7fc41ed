/** A sort that puts rows in ascending order of a text key while keeping
    every row: the postcondition of the table sort on the `Test` column.
    The order on keys is a parameter: any total preorder, which covers a
    case-insensitive or culture-aware comparer (where distinct texts may
    tie) as well as the ordinal order `StrLe`. */
module Sorting {
  import opened Text

  /** `le` compares any two texts and is transitive. */
  ghost predicate TotalPreorder(le: (string, string) -> bool) {
    && (forall a, b :: le(a, b) || le(b, a))
    && (forall a, b, c :: le(a, b) && le(b, c) ==> le(a, c))
  }

  /** The ordinal order is one such order. */
  lemma OrdinalIsTotalPreorder()
    ensures TotalPreorder(StrLe)
  {
    forall a, b ensures StrLe(a, b) || StrLe(b, a) {
      StrLeTotal(a, b);
    }
    forall a, b, c | StrLe(a, b) && StrLe(b, c) ensures StrLe(a, c) {
      StrLeTransitive(a, b, c);
    }
  }

  ghost predicate SortedBy<T>(rows: seq<T>, key: T -> string, le: (string, string) -> bool) {
    forall i, j :: 0 <= i < j < |rows| ==> le(key(rows[i]), key(rows[j]))
  }

  /** Puts `x` into an already sorted sequence, before the first row whose key
      is not below its own. */
  function InsertBy<T>(x: T, rows: seq<T>, key: T -> string, le: (string, string) -> bool): (r: seq<T>)
    requires TotalPreorder(le) && SortedBy(rows, key, le)
    ensures SortedBy(r, key, le)
    ensures multiset(r) == multiset(rows) + multiset{x}
    decreases |rows|
  {
    if |rows| == 0 then [x]
    else if le(key(x), key(rows[0])) then
      LeadBelowAll(x, rows, key, le);
      [x] + rows
    else
      assert rows == [rows[0]] + rows[1..];
      var tail := InsertBy(x, rows[1..], key, le);
      assert le(key(rows[0]), key(x));
      forall y | y in tail ensures le(key(rows[0]), key(y)) {
        assert y in multiset(tail);
        if y != x {
          assert y in rows[1..];
        }
      }
      [rows[0]] + tail
  }

  lemma LeadBelowAll<T>(x: T, rows: seq<T>, key: T -> string, le: (string, string) -> bool)
    requires TotalPreorder(le)
    requires |rows| > 0 && SortedBy(rows, key, le) && le(key(x), key(rows[0]))
    ensures SortedBy([x] + rows, key, le)
  {
    forall j | 0 < j < |rows| ensures le(key(x), key(rows[j])) {
      assert le(key(rows[0]), key(rows[j]));
    }
  }

  /** Insertion sort: the result is in ascending key order and holds exactly
      the rows it was given. */
  function SortBy<T>(rows: seq<T>, key: T -> string, le: (string, string) -> bool): (r: seq<T>)
    requires TotalPreorder(le)
    ensures SortedBy(r, key, le)
    ensures multiset(r) == multiset(rows)
    decreases |rows|
  {
    if |rows| == 0 then []
    else
      assert rows == [rows[0]] + rows[1..];
      InsertBy(rows[0], SortBy(rows[1..], key, le), key, le)
  }
}
