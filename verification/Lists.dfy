/** Lists without repeats, and lists in order. */
module Lists {
  import opened Wrappers

  predicate Distinct<T(==)>(s: seq<T>) {
    forall i, j :: 0 <= i < j < |s| ==> s[i] != s[j]
  }

  lemma Associate<T>(a: seq<T>, b: seq<T>, c: seq<T>)
    ensures (a + b) + c == a + (b + c)
  {
  }

  /** The names a list mentions, each where it first comes. */
  function FirstMentions(rows: seq<Option<string>>): seq<string> {
    if rows == [] then []
    else
      var before, row := FirstMentions(rows[..|rows| - 1]), rows[|rows| - 1];
      if row.Some? && row.value !in before then before + [row.value] else before
  }

  lemma {:induction false} MentionsGrow(rows: seq<Option<string>>, n: nat, m: nat)
    requires n <= m <= |rows|
    ensures FirstMentions(rows[..n]) <= FirstMentions(rows[..m])
  {
    if n == m {
    } else {
      MentionsGrow(rows, n, m - 1);
      assert rows[..m][..m - 1] == rows[..m - 1];
    }
  }

  /** No name twice, only names the list mentions, and all of them. */
  lemma {:induction false} MentionsAreAll(rows: seq<Option<string>>)
    ensures Distinct(FirstMentions(rows))
    ensures forall name :: name in FirstMentions(rows) <==> Some(name) in rows
  {
    if rows == [] {
    } else {
      var init, last := rows[..|rows| - 1], rows[|rows| - 1];
      MentionsAreAll(init);
      assert rows == init + [last];
    }
  }

  predicate Descending(s: seq<nat>) {
    forall i, j :: 0 <= i < j < |s| ==> s[i] >= s[j]
  }

  function Insert(s: seq<nat>, x: nat): seq<nat> {
    if s == [] || s[|s| - 1] >= x then s + [x] else Insert(s[..|s| - 1], x) + [s[|s| - 1]]
  }

  function SortDown(s: seq<nat>): seq<nat> {
    if s == [] then [] else Insert(SortDown(s[..|s| - 1]), s[|s| - 1])
  }

  lemma {:induction false} InsertKeeps(s: seq<nat>, x: nat)
    ensures multiset(Insert(s, x)) == multiset(s) + multiset{x}
  {
    if s == [] || s[|s| - 1] >= x {
    } else {
      var init, last := s[..|s| - 1], s[|s| - 1];
      assert s == init + [last];
      InsertKeeps(init, x);
    }
  }

  predicate AtLeast(s: seq<nat>, bound: nat) {
    forall i :: 0 <= i < |s| ==> s[i] >= bound
  }

  lemma {:induction false} InsertStaysAbove(s: seq<nat>, x: nat, bound: nat)
    requires AtLeast(s, bound) && x >= bound
    ensures AtLeast(Insert(s, x), bound)
  {
    if s == [] || s[|s| - 1] >= x {
    } else {
      InsertStaysAbove(s[..|s| - 1], x, bound);
    }
  }

  lemma {:induction false} InsertSorts(s: seq<nat>, x: nat)
    requires Descending(s)
    ensures Descending(Insert(s, x))
  {
    if s == [] || s[|s| - 1] >= x {
    } else {
      var init, last := s[..|s| - 1], s[|s| - 1];
      InsertSorts(init, x);
      InsertStaysAbove(init, x, last);
    }
  }

  /** Highest first, none lost. */
  lemma {:induction false} SortDownSorts(s: seq<nat>)
    ensures Descending(SortDown(s)) && multiset(SortDown(s)) == multiset(s)
  {
    if s == [] {
    } else {
      var init, last := s[..|s| - 1], s[|s| - 1];
      SortDownSorts(init);
      InsertSorts(SortDown(init), last);
      InsertKeeps(SortDown(init), last);
      assert s == init + [last];
    }
  }
}
