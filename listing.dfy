/** Row selection for GET /todos/ and GET /agenda/: the four substring
    filters of the listing query and the exact due-date match of the agenda. */
module Listing {
  import opened Todos
  import Validation

  /** `needle` occurs in `hay` as a contiguous run, the test
      `column LIKE '%needle%'` makes (without LIKE's case folding and wildcards). */
  predicate Contains(hay: string, needle: string)
    decreases |hay|
  {
    needle <= hay || (|hay| > 0 && Contains(hay[1..], needle))
  }

  /** Reference definition of substring containment, by position. */
  ghost predicate OccursAt(hay: string, needle: string, i: int)
  {
    0 <= i <= |hay| - |needle| && hay[i..i + |needle|] == needle
  }

  ghost predicate Occurs(hay: string, needle: string)
  {
    exists i :: OccursAt(hay, needle, i)
  }

  /** A slice of the tail is the slice of the whole shifted by one. */
  lemma SliceOfTail(hay: string, i: nat, n: nat)
    requires 0 < |hay| && i + n <= |hay| - 1
    ensures hay[1..][i..i + n] == hay[i + 1..i + 1 + n]
  {
    var shifted, direct := hay[1..][i..i + n], hay[i + 1..i + 1 + n];
    forall k | 0 <= k < n ensures shifted[k] == direct[k] {
    }
    assert shifted == direct;
  }

  /** Contains agrees with the positional definition. */
  lemma {:induction false} ContainsIffOccurs(hay: string, needle: string)
    ensures Contains(hay, needle) <==> Occurs(hay, needle)
    decreases |hay|
  {
    if needle <= hay {
      assert OccursAt(hay, needle, 0);
    } else if |hay| == 0 {
      assert |needle| > 0;
    } else {
      ContainsIffOccurs(hay[1..], needle);
      if Occurs(hay[1..], needle) {
        var i :| OccursAt(hay[1..], needle, i);
        SliceOfTail(hay, i, |needle|);
        assert OccursAt(hay, needle, i + 1);
      }
      if Occurs(hay, needle) {
        var i :| OccursAt(hay, needle, i);
        SliceOfTail(hay, i - 1, |needle|);
        assert OccursAt(hay[1..], needle, i - 1);
      }
    }
  }

  /** The query of GET /todos/; a parameter left out is "" (the destructuring default). */
  datatype Query = Query(status: string, priority: string, searchQ: string, category: string)

  const NoFilters := Query("", "", "", "")

  /** The WHERE clause of the listing: all four filters must hold. */
  predicate Matches(t: Todo, q: Query)
  {
    && Contains(t.status, q.status)
    && Contains(t.priority, q.priority)
    && Contains(t.todo, q.searchQ)
    && Contains(t.category, q.category)
  }

  /** A row is listed exactly when each supplied filter text occurs in its column. */
  lemma MatchesIffOccurs(t: Todo, q: Query)
    ensures Matches(t, q) <==>
              && Occurs(t.status, q.status)
              && Occurs(t.priority, q.priority)
              && Occurs(t.todo, q.searchQ)
              && Occurs(t.category, q.category)
  {
    ContainsIffOccurs(t.status, q.status);
    ContainsIffOccurs(t.priority, q.priority);
    ContainsIffOccurs(t.todo, q.searchQ);
    ContainsIffOccurs(t.category, q.category);
  }

  /** Filters combine with AND: matching a query is matching each of its
      single-filter queries. */
  lemma FiltersConjoin(t: Todo, q: Query)
    ensures Matches(t, q) <==>
              && Matches(t, NoFilters.(status := q.status))
              && Matches(t, NoFilters.(priority := q.priority))
              && Matches(t, NoFilters.(searchQ := q.searchQ))
              && Matches(t, NoFilters.(category := q.category))
  {
  }

  /** The rows the listing query returns. */
  function Select(rows: map<int, Todo>, q: Query): set<Todo>
  {
    set t | t in rows.Values && Matches(t, q)
  }

  /** Listing with no filter returns the whole table. */
  lemma SelectNoFiltersIsAll(rows: map<int, Todo>)
    ensures Select(rows, NoFilters) == rows.Values
  {
  }

  /** The fields the listing validates: no due date, and "" counts as absent. */
  function ListFields(q: Query): Validation.Fields
  {
    Validation.Fields(Some(q.priority), Some(q.status), Some(q.category), None)
  }

  /** The rows of the agenda: exact match on the stored due date. */
  function DueOn(rows: map<int, Todo>, day: string): set<Todo>
  {
    set t | t in rows.Values && t.dueDate == day
  }
}
