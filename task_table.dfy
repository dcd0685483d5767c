/**
 * The contents of the `tasks` table as a value, and what each SQL statement of the DAO does
 * to it. The table is a map from primary key to row; the class in module Dao holds one.
 */
module Table {
  import opened Common
  import opened Entities
  import opened IdOrder

  type Rows = map<string, TaskEntity>

  /** The primary-key invariant: every row is stored under its own id. */
  ghost predicate KeyedById(m: Rows) {
    forall id :: id in m ==> m[id].id == id
  }

  /** `SELECT * FROM tasks WHERE id = :id`: the row with that id, or null. */
  function Find(m: Rows, id: string): (r: Option<TaskEntity>)
    requires KeyedById(m)
    ensures r.Some? <==> id in m
    ensures r.Some? ==> r.value == m[id] && r.value.id == id
  {
    if id in m then Some(m[id]) else None
  }

  /** `INSERT` with `OnConflictStrategy.REPLACE`: adds the row, or replaces the one with its id. */
  function Inserted(m: Rows, e: TaskEntity): (r: Rows)
    requires KeyedById(m)
    ensures KeyedById(r)
    ensures r.Keys == m.Keys + {e.id} && r[e.id] == e
    ensures forall id :: id in m && id != e.id ==> r[id] == m[id]
    ensures |r| == if e.id in m then |m| else |m| + 1
  {
    m[e.id := e]
  }

  /** `@Update`: overwrites the row matched by primary key; no row matches, nothing changes. */
  function Updated(m: Rows, e: TaskEntity): (r: Rows)
    requires KeyedById(m)
    ensures KeyedById(r)
    ensures r.Keys == m.Keys
    ensures e.id in m ==> r[e.id] == e
    ensures forall id :: id in m && id != e.id ==> r[id] == m[id]
    ensures e.id !in m ==> r == m
  {
    if e.id in m then m[e.id := e] else m
  }

  /** `DELETE FROM tasks WHERE id = :id` (and `@Delete`, which matches by primary key only). */
  function RemovedId(m: Rows, id: string): (r: Rows)
    requires KeyedById(m)
    ensures KeyedById(r)
    ensures r.Keys == m.Keys - {id}
    ensures forall k :: k in r ==> r[k] == m[k]
    ensures |r| == if id in m then |m| - 1 else |m|
  {
    var r := map k | k in m && k != id :: m[k];
    assert r.Keys == m.Keys - {id};
    r
  }

  /** `UPDATE tasks SET is_completed = NOT is_completed WHERE id = :id`. */
  function Toggled(m: Rows, id: string): (r: Rows)
    requires KeyedById(m)
    ensures KeyedById(r)
    ensures r.Keys == m.Keys
    ensures id in m ==> r[id] == m[id].(isCompleted := !m[id].isCompleted)
    ensures forall k :: k in m && k != id ==> r[k] == m[k]
  {
    if id in m then m[id := m[id].(isCompleted := !m[id].isCompleted)] else m
  }

  /** Right after an insert, the lookup of its id returns exactly the inserted row. */
  lemma InsertThenFind(m: Rows, e: TaskEntity)
    requires KeyedById(m)
    ensures Find(Inserted(m, e), e.id) == Some(e)
  {
  }

  /** Toggling the same id twice restores the table. */
  lemma ToggleTwice(m: Rows, id: string)
    requires KeyedById(m)
    ensures Toggled(Toggled(m, id), id) == m
  {
    var r := Toggled(Toggled(m, id), id);
    assert forall k :: k in m ==> r[k] == m[k];
  }

  // ---------------------------------------------------------------------------------------------
  // The listing `SELECT * FROM tasks ORDER BY id ASC`

  /** Ids strictly increase along the sequence, so no id appears twice. */
  ghost predicate SortedById(s: seq<TaskEntity>) {
    forall i, j :: 0 <= i < j < |s| ==> IdBelow(s[i].id, s[j].id)
  }

  /**
   * `s` is a result of the listing query on `m`: as many entries as stored rows, each entry a
   * stored row, in ascending id order. That every stored row is present follows (ListingCovers).
   */
  ghost predicate IsListing(s: seq<TaskEntity>, m: Rows) {
    && |s| == |m|
    && (forall i :: 0 <= i < |s| ==> s[i].id in m && m[s[i].id] == s[i])
    && SortedById(s)
  }

  /** The ids occurring in a sequence of rows. */
  ghost function IdsOf(s: seq<TaskEntity>): (ids: set<string>)
    ensures forall i :: 0 <= i < |s| ==> s[i].id in ids
    ensures forall id :: id in ids ==> exists i :: 0 <= i < |s| && s[i].id == id
  {
    if s == [] then {}
    else
      var rest := IdsOf(s[1..]);
      assert forall id :: id in rest ==> exists i :: 1 <= i < |s| && s[i].id == id by {
        forall id | id in rest ensures exists i :: 1 <= i < |s| && s[i].id == id {
          var j :| 0 <= j < |s| - 1 && s[1..][j].id == id;
          assert s[j + 1].id == id;
        }
      }
      {s[0].id} + rest
  }

  /** A sorted sequence has as many distinct ids as entries. */
  lemma {:induction false} SortedIdsCount(s: seq<TaskEntity>)
    requires SortedById(s)
    ensures |IdsOf(s)| == |s|
  {
    if s != [] {
      SortedIdsCount(s[1..]);
      HeadIdFresh(s);
    }
  }

  /** In a sorted sequence the head's id does not occur again in the tail. */
  lemma HeadIdFresh(s: seq<TaskEntity>)
    requires SortedById(s) && |s| > 0
    ensures s[0].id !in IdsOf(s[1..])
  {
    IdBelowIrreflexive(s[0].id);
    assert forall i :: 0 <= i < |s| - 1 ==> s[1..][i].id != s[0].id;
  }

  /** A subset as large as its superset is the whole superset. */
  lemma SubsetSameSize(a: set<string>, b: set<string>)
    requires a <= b && |a| == |b|
    ensures a == b
  {
    assert b == a + (b - a);
    assert a * (b - a) == {};
    assert |b - a| == 0;
  }

  /** Every stored row appears in a listing of its table. */
  lemma ListingCovers(s: seq<TaskEntity>, m: Rows)
    requires IsListing(s, m)
    ensures forall id :: id in m ==> m[id] in s
  {
    SortedIdsCount(s);
    var ids := IdsOf(s);
    assert ids <= m.Keys;
    SubsetSameSize(ids, m.Keys);
    forall id | id in m ensures m[id] in s {
      var i :| 0 <= i < |s| && s[i].id == id;
    }
  }

  /** Prepending a row whose id is below every id of a sorted sequence keeps it sorted. */
  lemma PrependSorted(e: TaskEntity, s: seq<TaskEntity>)
    requires SortedById(s)
    requires forall x :: x in s ==> IdBelow(e.id, x.id)
    ensures SortedById([e] + s)
  {
    var r := [e] + s;
    forall i, j | 0 <= i < j < |r| ensures IdBelow(r[i].id, r[j].id) {
      if i > 0 {
        assert r[i] == s[i - 1] && r[j] == s[j - 1];
      } else {
        assert r[j] in s;
      }
    }
  }

  /** An id below the head of a sorted sequence is below all of its ids. */
  lemma BelowHead(e: TaskEntity, s: seq<TaskEntity>)
    requires SortedById(s) && |s| > 0
    requires IdBelow(e.id, s[0].id)
    ensures forall x :: x in s ==> IdBelow(e.id, x.id)
  {
    forall x | x in s ensures IdBelow(e.id, x.id) {
      var j :| 0 <= j < |s| && s[j] == x;
      if j > 0 {
        IdBelowTransitive(e.id, s[0].id, x.id);
      }
    }
  }

  /** Places a row with a fresh id at its position in an id-sorted sequence. */
  function InsertById(s: seq<TaskEntity>, e: TaskEntity): (r: seq<TaskEntity>)
    requires SortedById(s)
    requires forall x :: x in s ==> x.id != e.id
    ensures |r| == |s| + 1
    ensures forall x :: x in r <==> x in s || x == e
    ensures SortedById(r)
  {
    if s == [] then [e]
    else if IdBelow(e.id, s[0].id) then
      BelowHead(e, s);
      PrependSorted(e, s);
      [e] + s
    else
      IdBelowTotal(e.id, s[0].id);
      var tail := InsertById(s[1..], e);
      assert forall x :: x in tail ==> IdBelow(s[0].id, x.id) by {
        forall x | x in tail ensures IdBelow(s[0].id, x.id) {
          if x != e {
            var j :| 1 <= j < |s| && s[j] == x;
          }
        }
      }
      PrependSorted(s[0], tail);
      assert s == [s[0]] + s[1..];
      [s[0]] + tail
  }

  /** Adding a row with a fresh id to a table: inserting it by id into a listing gives a listing. */
  lemma ListingAdd(s: seq<TaskEntity>, m: Rows, e: TaskEntity)
    requires IsListing(s, m) && e.id !in m
    ensures forall x :: x in s ==> x.id != e.id
    ensures IsListing(InsertById(s, e), m[e.id := e])
  {
    assert forall x :: x in s ==> x.id in m;
    var r := InsertById(s, e);
    EntriesStoredAfterAdd(s, m, e, r, m[e.id := e]);
  }

  lemma EntriesStoredAfterAdd(s: seq<TaskEntity>, m: Rows, e: TaskEntity, r: seq<TaskEntity>, m': Rows)
    requires forall i :: 0 <= i < |s| ==> s[i].id in m && m[s[i].id] == s[i]
    requires e.id !in m && m' == m[e.id := e]
    requires forall x :: x in r <==> x in s || x == e
    ensures forall i :: 0 <= i < |r| ==> r[i].id in m' && m'[r[i].id] == r[i]
  {
    forall i | 0 <= i < |r| ensures r[i].id in m' && m'[r[i].id] == r[i] {
      assert r[i] in r;
      if r[i] != e {
        var j :| 0 <= j < |s| && s[j] == r[i];
        assert s[j].id != e.id;
      }
    }
  }

  /** The listing of a table: its rows in ascending id order. */
  ghost function Listing(m: Rows): (s: seq<TaskEntity>)
    requires KeyedById(m)
    ensures IsListing(s, m)
    decreases |m|
  {
    if m == map[] then []
    else
      var id :| id in m;
      var rest := RemovedId(m, id);
      ListingAdd(Listing(rest), rest, m[id]);
      assert rest[id := m[id]] == m;
      InsertById(Listing(rest), m[id])
  }

  /** Two id-sorted sequences with the same entries are equal. */
  lemma {:induction false} SortedSameEntries(a: seq<TaskEntity>, b: seq<TaskEntity>)
    requires SortedById(a) && SortedById(b)
    requires forall x :: x in a <==> x in b
    ensures a == b
    decreases |a|
  {
    assert |a| > 0 ==> a[0] in b;
    assert |b| > 0 ==> b[0] in a;
    if |a| > 0 && |b| > 0 {
      IdBelowAsymmetric(a[0].id, b[0].id);
      assert a[0] == b[0];
      forall x ensures x in a[1..] <==> x in b[1..] {
        IdBelowIrreflexive(x.id);
        if x in a[1..] {
          var i :| 1 <= i < |a| && a[i] == x;
          assert x in b;
          var j :| 0 <= j < |b| && b[j] == x;
          assert j != 0;
          assert b[1..][j - 1] == x;
        }
        if x in b[1..] {
          var j :| 1 <= j < |b| && b[j] == x;
          assert x in a;
          var i :| 0 <= i < |a| && a[i] == x;
          assert i != 0;
          assert a[1..][i - 1] == x;
        }
      }
      SortedSameEntries(a[1..], b[1..]);
      assert a == [a[0]] + a[1..] && b == [b[0]] + b[1..];
    }
  }

  /** The listing query has exactly one possible result on a given table. */
  lemma ListingUnique(s: seq<TaskEntity>, m: Rows)
    requires KeyedById(m) && IsListing(s, m)
    ensures s == Listing(m)
  {
    var l := Listing(m);
    ListingCovers(s, m);
    ListingCovers(l, m);
    forall x ensures x in s <==> x in l {
      if x in s {
        var i :| 0 <= i < |s| && s[i] == x;
      }
      if x in l {
        var i :| 0 <= i < |l| && l[i] == x;
      }
    }
    SortedSameEntries(s, l);
  }

  /** In a listing, the entry for a stored id is that id's row, and it appears once. */
  lemma ListingHasOneEntryPerId(s: seq<TaskEntity>, m: Rows, i: int, j: int)
    requires IsListing(s, m)
    requires 0 <= i < |s| && 0 <= j < |s| && s[i].id == s[j].id
    ensures i == j
  {
    if i < j || j < i {
      IdBelowIrreflexive(s[i].id);
    }
  }

  // ---------------------------------------------------------------------------------------------
  // The four demonstration rows the database callback inserts when the table is first created

  const SeedRow1 := TaskEntity("1", "學習 Jetpack Compose", "完成 Compose 基礎教程", false)
  const SeedRow2 := TaskEntity("2", "實現 MVVM 架構", "使用 ViewModel 和 StateFlow", false)
  const SeedRow3 := TaskEntity("3", "集成 Hilt 依賴注入", "設置依賴注入框架", false)
  const SeedRow4 := TaskEntity("4", "實作 Repository 模式", "將數據邏輯從 ViewModel 分離", false)

  function SeedTable(): (m: Rows)
    ensures KeyedById(m) && |m| == 4 && m.Keys == {"1", "2", "3", "4"}
    ensures forall id :: id in m ==> !m[id].isCompleted
  {
    map["1" := SeedRow1, "2" := SeedRow2, "3" := SeedRow3, "4" := SeedRow4]
  }

  /** The seeded table lists its four rows in id order. */
  lemma SeedListing()
    ensures Listing(SeedTable()) == [SeedRow1, SeedRow2, SeedRow3, SeedRow4]
  {
    var s := [SeedRow1, SeedRow2, SeedRow3, SeedRow4];
    assert SortedById(s) by {
      assert IdBelow("1", "2") && IdBelow("2", "3") && IdBelow("3", "4");
      assert IdBelow("1", "3") && IdBelow("1", "4") && IdBelow("2", "4");
    }
    ListingUnique(s, SeedTable());
  }

  /** Deleting id "1" from the seeded table leaves a listing of the other three rows. */
  lemma SeedDeleteFirst()
    ensures Listing(RemovedId(SeedTable(), "1")) == [SeedRow2, SeedRow3, SeedRow4]
  {
    var m := map["2" := SeedRow2, "3" := SeedRow3, "4" := SeedRow4];
    assert RemovedId(SeedTable(), "1") == m;
    var s := [SeedRow2, SeedRow3, SeedRow4];
    assert SortedById(s) by {
      assert IdBelow("2", "3") && IdBelow("3", "4") && IdBelow("2", "4");
    }
    ListingUnique(s, m);
  }
}
