/** Pages of a list, and the server that cuts them. */
module Paging {
  import opened Sequences

  datatype Record = Record(id: string, payload: string)

  /** At most `size` records from `start` on. */
  function Window<T>(list: seq<T>, start: nat, size: nat): seq<T> {
    list[Min(start, |list|)..Min(start + size, |list|)]
  }

  /** Page `page` of `size` records of `list`; a page past the end is empty. */
  function PageOf<T>(list: seq<T>, page: nat, size: nat): seq<T> {
    Window(list, page * size, size)
  }

  /** The records whose ids were asked for, in the order of the list. */
  function Match(records: seq<Record>, ids: set<string>): seq<Record> {
    if records == [] then []
    else
      var last := records[|records| - 1];
      Match(records[..|records| - 1], ids) + if last.id in ids then [last] else []
  }

  function Wanted(ids: seq<string>): set<string> {
    set id <- ids
  }

  function Ids(records: seq<Record>): set<string> {
    set r <- records :: r.id
  }

  ghost predicate DistinctIds(records: seq<Record>) {
    forall i: nat, j: nat | i < j < |records| :: records[i].id != records[j].id
  }

  // ------------------------------------------------------------------ the server

  function Take<T>(list: seq<T>, n: nat): seq<T> {
    list[..Min(n, |list|)]
  }

  function Skip<T>(list: seq<T>, n: nat): seq<T> {
    list[Min(n, |list|)..]
  }

  /**
  The server keeps what is stored and what is still buffered apart and joins them page by page: a page
  that the stored records do not fill is filled up from the buffer, later pages come from the buffer
  alone.
  */
  function Splice(stored: seq<Record>, buffered: seq<Record>, offset: nat, size: nat): seq<Record> {
    var found := Window(stored, offset, size);
    if offset > |stored| then Take(Skip(buffered, offset - |stored|), size)
    else found + Take(buffered, size - |found|)
  }

  /** A request for given ids is answered from the buffer if the buffer has them all. */
  function Serve(stored: seq<Record>, buffered: seq<Record>, ids: seq<string>, offset: nat, size: nat): seq<Record> {
    var wanted := Wanted(ids);
    var inBuffer := Match(buffered, wanted);
    if |ids| == |Ids(inBuffer)| then Take(Skip(inBuffer, Min(offset, |inBuffer|)), size)
    else Splice(Match(stored, wanted), inBuffer, offset, size)
  }

  /** Window by window, the server hands out stored and buffered records as if they were one list. */
  lemma SpliceIsWindow(stored: seq<Record>, buffered: seq<Record>, offset: nat, size: nat)
    ensures Splice(stored, buffered, offset, size) == Window(stored + buffered, offset, size)
  {}

  // ------------------------------------------------------------------ matching

  lemma {:induction false} MatchAppends(first: seq<Record>, second: seq<Record>, ids: set<string>)
    ensures Match(first + second, ids) == Match(first, ids) + Match(second, ids)
  {
    if second == [] {
      assert first + second == first;
    } else {
      var all := first + second;
      assert all[..|all| - 1] == first + second[..|second| - 1];
      MatchAppends(first, second[..|second| - 1], ids);
    }
  }

  lemma {:induction false} MatchIs(records: seq<Record>, ids: set<string>, r: Record)
    ensures r in Match(records, ids) <==> r in records && r.id in ids
  {
    if records == [] {
    } else {
      MatchIs(records[..|records| - 1], ids, r);
      assert records == records[..|records| - 1] + [records[|records| - 1]];
    }
  }

  lemma {:induction false} MatchIgnores(records: seq<Record>, ids: set<string>, id: string)
    requires forall r <- records :: r.id != id
    ensures Match(records, ids) == Match(records, ids - {id})
  {
    if records == [] {
    } else {
      MatchIgnores(records[..|records| - 1], ids, id);
    }
  }

  /** Among records with distinct ids no more can match than ids were asked for. */
  lemma {:induction false} MatchBound(records: seq<Record>, ids: set<string>)
    requires DistinctIds(records)
    ensures |Match(records, ids)| <= |ids|
  {
    if records == [] {
    } else {
      var init, id := records[..|records| - 1], records[|records| - 1].id;
      if id in ids {
        MatchIgnores(init, ids, id);
        MatchBound(init, ids - {id});
      } else {
        MatchBound(init, ids);
      }
    }
  }

  /** What two sets of ids match together is what each of them matches. */
  lemma {:induction false} MatchUnion(records: seq<Record>, a: set<string>, b: set<string>)
    requires a !! b
    ensures multiset(Match(records, a + b)) == multiset(Match(records, a)) + multiset(Match(records, b))
  {
    if records == [] {
    } else {
      MatchUnion(records[..|records| - 1], a, b);
    }
  }

  lemma {:induction false} NoneMatches(records: seq<Record>, ids: set<string>)
    requires forall r <- records :: r.id !in ids
    ensures Match(records, ids) == []
  {
    if records == [] {
    } else {
      NoneMatches(records[..|records| - 1], ids);
    }
  }

  lemma {:induction false} SetOfIds(ids: seq<string>)
    ensures |Wanted(ids)| <= |ids|
  {
    if ids == [] {
    } else {
      var init, last := ids[..|ids| - 1], ids[|ids| - 1];
      SetOfIds(init);
      assert Wanted(ids) == Wanted(init) + {last};
    }
  }

  lemma SubsetOfSameSize<T>(a: set<T>, b: set<T>)
    requires a <= b && |b| <= |a|
    ensures a == b
  {
    assert |b - a| == |b| - |a|;
  }

  /** The answer to a request for given ids is a window on all that matches, wherever it is kept. */
  lemma ServeIsWindow(stored: seq<Record>, buffered: seq<Record>, ids: seq<string>, offset: nat, size: nat)
    requires DistinctIds(stored + buffered)
    ensures Serve(stored, buffered, ids, offset, size) == Window(Match(stored + buffered, Wanted(ids)), offset, size)
  {
    var inBuffer := Match(buffered, Wanted(ids));
    MatchAppends(stored, buffered, Wanted(ids));
    if |ids| == |Ids(inBuffer)| {
      BufferHasAll(stored, buffered, ids);
    }
    ServeJoins(stored, buffered, ids, offset, size);
  }

  lemma ServeJoins(stored: seq<Record>, buffered: seq<Record>, ids: seq<string>, offset: nat, size: nat)
    requires |ids| == |Ids(Match(buffered, Wanted(ids)))| ==> Match(stored, Wanted(ids)) == []
    ensures Serve(stored, buffered, ids, offset, size)
         == Window(Match(stored, Wanted(ids)) + Match(buffered, Wanted(ids)), offset, size)
  {
    var inStore, inBuffer := Match(stored, Wanted(ids)), Match(buffered, Wanted(ids));
    SpliceIsWindow(inStore, inBuffer, offset, size);
    assert inStore == [] ==> inStore + inBuffer == inBuffer;
    SkipTakeIsWindow(inBuffer, offset, size);
  }

  lemma SkipTakeIsWindow<T>(list: seq<T>, offset: nat, size: nat)
    ensures Take(Skip(list, Min(offset, |list|)), size) == Window(list, offset, size)
  {}

  lemma BufferHasAll(stored: seq<Record>, buffered: seq<Record>, ids: seq<string>)
    requires DistinctIds(stored + buffered)
    requires |ids| == |Ids(Match(buffered, Wanted(ids)))|
    ensures Match(stored, Wanted(ids)) == []
  {
    var wanted := Wanted(ids);
    var found := Match(buffered, wanted);
    SetOfIds(ids);
    forall id <- Ids(found) ensures id in wanted {
      var r :| r in found && r.id == id;
      MatchIs(buffered, wanted, r);
    }
    SubsetOfSameSize(Ids(found), wanted);
    forall r <- stored ensures r.id !in wanted {
      var i: nat :| i < |stored| && stored[i] == r;
      forall b <- found ensures b.id != r.id {
        MatchIs(buffered, wanted, b);
        var j: nat :| j < |buffered| && buffered[j] == b;
        assert (stored + buffered)[i] == r && (stored + buffered)[|stored| + j] == b;
      }
    }
    NoneMatches(stored, wanted);
  }

  /** The answer to a request for one page. */
  function ServePage(stored: seq<Record>, buffered: seq<Record>, ids: seq<string>, page: nat, size: nat): seq<Record> {
    Serve(stored, buffered, ids, page * size, size)
  }

  lemma ServePageIsPage(stored: seq<Record>, buffered: seq<Record>, ids: seq<string>, page: nat, size: nat)
    requires DistinctIds(stored + buffered)
    ensures ServePage(stored, buffered, ids, page, size) == PageOf(Match(stored + buffered, Wanted(ids)), page, size)
  {
    var offset := page * size;
    ServeIsWindow(stored, buffered, ids, offset, size);
  }
}
