/** Step 4 of the Docling pipeline (final.py): the collected transactions are numbered, the empty
    ones dropped, and the table's columns ordered with the standard columns first. The table's
    column set is what pandas builds from a list of dicts: every key, in order of first appearance. */
module TransactionTable {
  import opened Wrappers
  import opened JsonValue
  import Collections

  const TransactionId := "transaction_id"

  /** `standard_columns`, in the preferred order. */
  const StandardColumns: seq<string> :=
    ["transaction_id", "date", "description", "debit", "credit", "running_balance", "reference"]

  /** What the aggregation ends in: nothing written, a `TypeError` out of the numbering loop, or
      the table handed to `to_csv`. */
  datatype Outcome = NoTransactions | Crashed | Table(columns: seq<string>, rows: seq<Entries>)

  /** Every truthy entry is a dict, so that `tx['transaction_id'] = i + 1` does not raise. */
  predicate Numberable(txs: seq<Json>) {
    forall i :: 0 <= i < |txs| ==> !Truthy(txs[i]) || txs[i].JObj?
  }

  /** The id the numbering loop gives the entry at place `i` of the list. */
  function IdAt(i: nat): Json {
    IntValue(i + 1)
  }

  /** Entry `i` after the numbering loop: a truthy dict gets the id `i + 1`, anything else stays. */
  function Numbered(tx: Json, i: nat): Json
    requires !Truthy(tx) || tx.JObj?
  {
    if Truthy(tx) then JObj(Put(tx.entries, TransactionId, IdAt(i))) else tx
  }

  function NumberedAll(txs: seq<Json>): (r: seq<Json>)
    requires Numberable(txs)
    ensures |r| == |txs|
  {
    seq(|txs|, i requires 0 <= i < |txs| => Numbered(txs[i], i))
  }

  /** `for i, tx in enumerate(all_transactions): if tx: tx['transaction_id'] = i + 1`, updating the
      list in place; None where an entry is truthy but not a dict. */
  method NumberTransactions(txs: seq<Json>) returns (r: Option<seq<Json>>)
    ensures r.Some? <==> Numberable(txs)
    ensures r.Some? ==> r.value == NumberedAll(txs)
  {
    var stamped := txs;
    var i := 0;
    while i < |txs|
      invariant 0 <= i <= |txs| && |stamped| == |txs|
      invariant forall j :: 0 <= j < i ==> !Truthy(txs[j]) || txs[j].JObj?
      invariant forall j :: 0 <= j < i ==> stamped[j] == Numbered(txs[j], j)
      invariant forall j :: i <= j < |txs| ==> stamped[j] == txs[j]
    {
      if Truthy(txs[i]) {
        if !txs[i].JObj? {
          return None;
        }
        stamped := stamped[i := JObj(Put(txs[i].entries, TransactionId, IdAt(i)))];
      }
      i := i + 1;
    }
    r := Some(stamped);
  }

  /** `[tx for tx in all_transactions if tx]`, as the dicts they are. */
  function Rows(txs: seq<Json>): seq<Entries>
    requires Numberable(txs)
    decreases |txs|
  {
    if |txs| == 0 then []
    else
      var init := txs[..|txs| - 1];
      assert Numberable(init) by { assert forall i :: 0 <= i < |init| ==> init[i] == txs[i]; }
      Rows(init) + if Truthy(txs[|txs| - 1]) then [txs[|txs| - 1].entries] else []
  }

  /** The positions of the truthy entries: each one exactly once, in increasing order. */
  function TruthyPositions(txs: seq<Json>): (r: seq<nat>)
    ensures forall k :: 0 <= k < |r| ==> r[k] < |txs| && Truthy(txs[r[k]])
    ensures forall k, l :: 0 <= k < l < |r| ==> r[k] < r[l]
    ensures forall i :: 0 <= i < |txs| && Truthy(txs[i]) ==> i in r
    decreases |txs|
  {
    if |txs| == 0 then []
    else
      var init := txs[..|txs| - 1];
      assert forall i :: 0 <= i < |init| ==> init[i] == txs[i];
      TruthyPositions(init) + if Truthy(txs[|txs| - 1]) then [|txs| - 1] else []
  }

  /** Every key of every row, row by row. */
  function AllKeys(rows: seq<Entries>): (r: seq<string>)
    ensures forall x :: x in r <==> exists k :: 0 <= k < |rows| && x in Keys(rows[k])
    decreases |rows|
  {
    if |rows| == 0 then []
    else
      var init := rows[..|rows| - 1];
      assert forall k :: 0 <= k < |init| ==> init[k] == rows[k];
      AllKeys(init) + Keys(rows[|rows| - 1])
  }

  /** `df.columns` of `pd.DataFrame(rows)`. */
  function FrameColumns(rows: seq<Entries>): seq<string> {
    Collections.FirstSeen(AllKeys(rows))
  }

  /** The columns of `cols` that the frame has, in the order of `cols`. */
  function Present(cols: seq<string>, frame: seq<string>): (r: seq<string>)
    ensures forall x :: x in r <==> x in cols && x in frame
    decreases |cols|
  {
    if |cols| == 0 then []
    else
      var init := cols[..|cols| - 1];
      assert cols == init + [cols[|cols| - 1]];
      Present(init, frame) + if cols[|cols| - 1] in frame then [cols[|cols| - 1]] else []
  }

  /** `final_columns`: the standard columns the frame has, then every other frame column. */
  function OrderedColumns(frame: seq<string>): seq<string> {
    Collections.FirstSeen(Present(StandardColumns, frame) + frame)
  }

  /** The first loop: `for col in standard_columns: if col in df.columns: final_columns.append(col)`. */
  method KeepPresent(cols: seq<string>, frame: seq<string>) returns (kept: seq<string>)
    ensures kept == Present(cols, frame)
  {
    kept := [];
    var k := 0;
    while k < |cols|
      invariant 0 <= k <= |cols|
      invariant kept == Present(cols[..k], frame)
    {
      assert cols[..k + 1][..k] == cols[..k];
      if cols[k] in frame {
        kept := kept + [cols[k]];
      }
      k := k + 1;
    }
    assert cols[..k] == cols;
  }

  /** The second loop: `for col in df.columns: if col not in final_columns: final_columns.append(col)`. */
  method AppendMissing(start: seq<string>, frame: seq<string>) returns (final: seq<string>)
    requires Collections.Distinct(start)
    ensures final == Collections.FirstSeen(start + frame)
  {
    final := start;
    Collections.FirstSeenOfDistinct(start);
    assert start + frame[..0] == start;
    var j := 0;
    while j < |frame|
      invariant 0 <= j <= |frame|
      invariant final == Collections.FirstSeen(start + frame[..j])
    {
      Collections.FirstSeenExtend(start, frame, j);
      if frame[j] !in final {
        final := final + [frame[j]];
      }
      j := j + 1;
    }
    assert frame[..j] == frame;
  }

  /** `final_columns`, built by the two loops. */
  method OrderColumns(frame: seq<string>) returns (final: seq<string>)
    ensures final == OrderedColumns(frame)
  {
    var standard := KeepPresent(StandardColumns, frame);
    PresentDistinct(StandardColumns, frame);
    final := AppendMissing(standard, frame);
  }

  /** Step 4: nothing to write, a crash in the numbering loop, or the table. */
  method Aggregate(txs: seq<Json>) returns (out: Outcome)
    ensures txs == [] ==> out == NoTransactions
    ensures txs != [] && !Numberable(txs) ==> out == Crashed
    ensures txs != [] && Numberable(txs) ==>
              out == Table(OrderedColumns(FrameColumns(Rows(NumberedAll(txs)))), Rows(NumberedAll(txs)))
  {
    if |txs| == 0 {
      return NoTransactions;
    }
    var stamped := NumberTransactions(txs);
    if stamped.None? {
      return Crashed;
    }
    NumberedAllNumberable(txs);
    var rows := Rows(stamped.value);
    var columns := OrderColumns(FrameColumns(rows));
    out := Table(columns, rows);
  }

  lemma NumberedAllNumberable(txs: seq<Json>)
    requires Numberable(txs)
    ensures Numberable(NumberedAll(txs))
  {
  }

  lemma {:induction false} PresentDistinct(cols: seq<string>, frame: seq<string>)
    requires Collections.Distinct(cols)
    ensures Collections.Distinct(Present(cols, frame))
    decreases |cols|
  {
    if |cols| > 0 {
      var init := cols[..|cols| - 1];
      assert Collections.Distinct(init);
      PresentDistinct(init, frame);
      assert cols[|cols| - 1] !in init;
    }
  }

  /** The rows are the truthy entries' dicts, in their original order. */
  lemma {:induction false} RowsAtTruthyPositions(txs: seq<Json>)
    requires Numberable(txs)
    ensures |Rows(txs)| == |TruthyPositions(txs)|
    ensures forall k :: 0 <= k < |Rows(txs)| ==> Rows(txs)[k] == txs[TruthyPositions(txs)[k]].entries
    decreases |txs|
  {
    if |txs| > 0 {
      var init, last := txs[..|txs| - 1], txs[|txs| - 1];
      assert Numberable(init) by { assert forall i :: 0 <= i < |init| ==> init[i] == txs[i]; }
      RowsAtTruthyPositions(init);
      var rs, ps := Rows(init), TruthyPositions(init);
      assert Rows(txs) == rs + if Truthy(last) then [last.entries] else [];
      assert TruthyPositions(txs) == ps + if Truthy(last) then [|txs| - 1] else [];
      forall k | 0 <= k < |Rows(txs)| ensures Rows(txs)[k] == txs[TruthyPositions(txs)[k]].entries {
        if k < |rs| {
          assert Rows(txs)[k] == rs[k] && TruthyPositions(txs)[k] == ps[k];
          assert init[ps[k]] == txs[ps[k]];
        }
      }
    }
  }

  /** Two lists whose entries agree in truthiness have their truthy entries at the same places. */
  lemma {:induction false} TruthyPositionsAgree(a: seq<Json>, b: seq<Json>)
    requires |a| == |b| && forall i :: 0 <= i < |a| ==> (Truthy(a[i]) <==> Truthy(b[i]))
    ensures TruthyPositions(a) == TruthyPositions(b)
    decreases |a|
  {
    if |a| > 0 {
      TruthyPositionsAgree(a[..|a| - 1], b[..|b| - 1]);
    }
  }

  /** The rows of the numbered list are its entries at the truthy places of the original list. */
  lemma RowsOfNumbered(txs: seq<Json>)
    requires Numberable(txs)
    ensures Numberable(NumberedAll(txs))
    ensures |Rows(NumberedAll(txs))| == |TruthyPositions(txs)|
    ensures forall k :: 0 <= k < |TruthyPositions(txs)| ==>
              Rows(NumberedAll(txs))[k] == NumberedAll(txs)[TruthyPositions(txs)[k]].entries
  {
    var na := NumberedAll(txs);
    assert forall i :: 0 <= i < |txs| ==> (Truthy(na[i]) <==> Truthy(txs[i])) by {
      forall i | 0 <= i < |txs| ensures Truthy(na[i]) <==> Truthy(txs[i]) {
        if Truthy(txs[i]) {
          assert |Keys(na[i].entries)| > 0;
        }
      }
    }
    TruthyPositionsAgree(na, txs);
    NumberedAllNumberable(txs);
    RowsAtTruthyPositions(na);
  }

  /** Row `k` of the table is the `k`-th truthy entry with `transaction_id` set to its place in the
      collected list plus one; every other field is the entry's own. */
  lemma RowsNumbered(txs: seq<Json>)
    requires Numberable(txs)
    ensures |Rows(NumberedAll(txs))| == |TruthyPositions(txs)|
    ensures forall k :: 0 <= k < |TruthyPositions(txs)| ==>
              Rows(NumberedAll(txs))[k] ==
              Put(txs[TruthyPositions(txs)[k]].entries, TransactionId, IdAt(TruthyPositions(txs)[k]))
  {
    var na := NumberedAll(txs);
    var tp := TruthyPositions(txs);
    RowsOfNumbered(txs);
    forall k | 0 <= k < |tp|
      ensures Rows(na)[k] == Put(txs[tp[k]].entries, TransactionId, IdAt(tp[k]))
    {
      assert Rows(na)[k] == na[tp[k]].entries;
      assert na[tp[k]] == Numbered(txs[tp[k]], tp[k]);
    }
  }

  /** In every row, `transaction_id` holds the id the loop gave it and the other fields are untouched. */
  lemma RowIds(txs: seq<Json>, k: nat, key: string)
    requires Numberable(txs) && k < |TruthyPositions(txs)|
    ensures k < |Rows(NumberedAll(txs))|
    ensures Lookup(Rows(NumberedAll(txs))[k], TransactionId) == Some(IdAt(TruthyPositions(txs)[k]))
    ensures key != TransactionId ==>
              Lookup(Rows(NumberedAll(txs))[k], key) == Lookup(txs[TruthyPositions(txs)[k]].entries, key)
  {
    RowOfNumbered(txs, k);
    NumberedIds(txs, TruthyPositions(txs)[k], key);
  }

  lemma RowOfNumbered(txs: seq<Json>, k: nat)
    requires Numberable(txs) && k < |TruthyPositions(txs)|
    ensures k < |Rows(NumberedAll(txs))| && TruthyPositions(txs)[k] < |txs| && Truthy(txs[TruthyPositions(txs)[k]])
    ensures NumberedAll(txs)[TruthyPositions(txs)[k]].JObj?
    ensures Rows(NumberedAll(txs))[k] == NumberedAll(txs)[TruthyPositions(txs)[k]].entries
  {
    RowsOfNumbered(txs);
  }

  /** The numbering loop gives a truthy entry the id of its place plus one and leaves its other
      fields as they were. */
  lemma NumberedIds(txs: seq<Json>, i: nat, key: string)
    requires Numberable(txs) && i < |txs| && Truthy(txs[i])
    ensures NumberedAll(txs)[i].JObj?
    ensures Lookup(NumberedAll(txs)[i].entries, TransactionId) == Some(IdAt(i))
    ensures key != TransactionId ==> Lookup(NumberedAll(txs)[i].entries, key) == Lookup(txs[i].entries, key)
  {
    var e, v := txs[i].entries, IdAt(i);
    assert NumberedAll(txs)[i] == JObj(Put(e, TransactionId, v));
    PutThenLookup(e, TransactionId, v);
    if key != TransactionId {
      PutKeepsOthers(e, TransactionId, v, key);
    }
  }

  /** The ids strictly increase down the table, so no two rows share one. */
  lemma IdsIncrease(txs: seq<Json>, k: nat, l: nat)
    requires Numberable(txs) && k < l < |TruthyPositions(txs)|
    ensures l < |Rows(NumberedAll(txs))|
    ensures exists a: nat, b: nat :: a < b
              && Lookup(Rows(NumberedAll(txs))[k], TransactionId) == Some(IntValue(a))
              && Lookup(Rows(NumberedAll(txs))[l], TransactionId) == Some(IntValue(b))
  {
    RowIds(txs, k, TransactionId);
    RowIds(txs, l, TransactionId);
    var a, b := TruthyPositions(txs)[k] + 1, TruthyPositions(txs)[l] + 1;
    assert a < b;
  }

  /** The ids are `1..len(all_transactions)` exactly when no collected entry is empty. */
  lemma EveryPositionTruthy(txs: seq<Json>)
    ensures (|TruthyPositions(txs)| == |txs| && CountsFromZero(TruthyPositions(txs))) <==>
            forall i :: 0 <= i < |txs| ==> Truthy(txs[i])
  {
    if forall i :: 0 <= i < |txs| ==> Truthy(txs[i]) {
      AllTruthyCountsFromZero(txs);
    } else if |TruthyPositions(txs)| == |txs| && CountsFromZero(TruthyPositions(txs)) {
      CountsFromZeroAllTruthy(txs, TruthyPositions(txs));
    }
  }

  lemma {:induction false} AllTruthyCountsFromZero(txs: seq<Json>)
    requires forall i :: 0 <= i < |txs| ==> Truthy(txs[i])
    ensures |TruthyPositions(txs)| == |txs| && CountsFromZero(TruthyPositions(txs))
    decreases |txs|
  {
    if |txs| > 0 {
      var init := txs[..|txs| - 1];
      assert forall i :: 0 <= i < |init| ==> init[i] == txs[i];
      AllTruthyCountsFromZero(init);
      assert TruthyPositions(txs) == TruthyPositions(init) + [|txs| - 1];
    }
  }

  lemma CountsFromZeroAllTruthy(txs: seq<Json>, tp: seq<nat>)
    requires tp == TruthyPositions(txs) && |tp| == |txs| && CountsFromZero(tp)
    ensures forall i :: 0 <= i < |txs| ==> Truthy(txs[i])
  {
    forall i | 0 <= i < |txs| ensures Truthy(txs[i]) {
      assert tp[i] == i;
    }
  }

  /** `tp` is `0, 1, ..., len(tp) - 1`. */
  predicate CountsFromZero(tp: seq<nat>) {
    forall k :: 0 <= k < |tp| ==> tp[k] == k
  }

  /** No empty entry comes before a real one. */
  predicate NoGap(txs: seq<Json>) {
    forall i, j :: 0 <= i < j < |txs| && Truthy(txs[j]) ==> Truthy(txs[i])
  }

  /** The ids are `1..len(rows)` exactly when the empty entries, if any, are all at the end. */
  lemma IdsContiguous(txs: seq<Json>)
    ensures CountsFromZero(TruthyPositions(txs)) <==> NoGap(txs)
  {
    if NoGap(txs) {
      NoGapIdsContiguous(txs);
    } else if CountsFromZero(TruthyPositions(txs)) {
      ContiguousIdsNoGap(txs, TruthyPositions(txs));
    }
  }

  lemma ContiguousIdsNoGap(txs: seq<Json>, tp: seq<nat>)
    requires tp == TruthyPositions(txs)
    requires CountsFromZero(tp)
    ensures NoGap(txs)
  {
    forall i, j | 0 <= i < j < |txs| && Truthy(txs[j]) ensures Truthy(txs[i]) {
      assert j in tp;
      var l :| 0 <= l < |tp| && tp[l] == j;
      assert tp[l] == l;
      assert tp[i] == i;
    }
  }

  lemma {:induction false} NoGapIdsContiguous(txs: seq<Json>)
    requires NoGap(txs)
    ensures CountsFromZero(TruthyPositions(txs))
    decreases |txs|
  {
    if |txs| > 0 {
      var init := txs[..|txs| - 1];
      assert NoGap(init);
      if Truthy(txs[|txs| - 1]) {
        assert forall i :: 0 <= i < |init| ==> Truthy(init[i]);
        AllTruthyCountsFromZero(init);
      } else {
        NoGapIdsContiguous(init);
      }
    }
  }

  /** If `cols` starts with a column of the frame, so does the selection. */
  lemma {:induction false} PresentHead(cols: seq<string>, frame: seq<string>)
    requires |cols| > 0 && cols[0] in frame
    ensures |Present(cols, frame)| > 0 && Present(cols, frame)[0] == cols[0]
    decreases |cols|
  {
    if |cols| > 1 {
      var init := cols[..|cols| - 1];
      PresentHead(init, frame);
    }
  }

  /** The standard columns the frame has come first, in the standard order; every column after them
      is a custom one. */
  lemma StandardColumnsFirst(frame: seq<string>)
    ensures var p, o := Present(StandardColumns, frame), OrderedColumns(frame);
      |p| <= |o| && o[..|p|] == p && forall i :: |p| <= i < |o| ==> o[i] !in StandardColumns
  {
    var p, o := Present(StandardColumns, frame), OrderedColumns(frame);
    PresentDistinct(StandardColumns, frame);
    Collections.FirstSeenKeepsPrefix(p, frame);
    forall i | |p| <= i < |o| ensures o[i] !in StandardColumns {
      assert o[i] in frame;
      assert o[i] !in p;
    }
  }

  /** The custom columns keep the frame's order. */
  lemma CustomColumnsInFrameOrder(frame: seq<string>, i: nat, j: nat)
    requires |Present(StandardColumns, frame)| <= i < j < |OrderedColumns(frame)|
    ensures var o := OrderedColumns(frame);
      o[i] in frame && o[j] in frame &&
      Collections.FirstIndex(frame, o[i]) < Collections.FirstIndex(frame, o[j])
  {
    var p, o := Present(StandardColumns, frame), OrderedColumns(frame);
    StandardColumnsFirst(frame);
    Collections.FirstSeenInOrder(p + frame, i, j);
    Collections.FirstIndexAfter(p, frame, o[i]);
    Collections.FirstIndexAfter(p, frame, o[j]);
  }

  /** `final_columns` holds every column of a (duplicate-free) frame exactly once. */
  lemma OrderedColumnsPermutation(frame: seq<string>)
    requires Collections.Distinct(frame)
    ensures Collections.Distinct(OrderedColumns(frame))
    ensures multiset(OrderedColumns(frame)) == multiset(frame)
  {
    var p, o := Present(StandardColumns, frame), OrderedColumns(frame);
    assert forall i :: 0 <= i < |o| ==> o[i] in frame by {
      forall i | 0 <= i < |o| ensures o[i] in frame {
        assert o[i] in p + frame;
      }
    }
    assert forall i :: 0 <= i < |frame| ==> frame[i] in o by {
      forall i | 0 <= i < |frame| ensures frame[i] in o {
        assert (p + frame)[|p| + i] == frame[i];
      }
    }
    Collections.DistinctSameElementsPermutation(o, frame);
  }

  /** Whenever there is a row, `transaction_id` is the first column of the table. */
  lemma TransactionIdFirst(txs: seq<Json>)
    requires Numberable(txs) && |TruthyPositions(txs)| > 0
    ensures |OrderedColumns(FrameColumns(Rows(NumberedAll(txs))))| > 0
    ensures OrderedColumns(FrameColumns(Rows(NumberedAll(txs))))[0] == TransactionId
  {
    var rows := Rows(NumberedAll(txs));
    var frame := FrameColumns(rows);
    RowIds(txs, 0, TransactionId);
    assert TransactionId in Keys(rows[0]);
    assert TransactionId in AllKeys(rows);
    assert TransactionId in frame;
    PresentHead(StandardColumns, frame);
    StandardColumnsFirst(frame);
    var p := Present(StandardColumns, frame);
    assert OrderedColumns(frame)[..|p|][0] == p[0];
  }
}
