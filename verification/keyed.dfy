/** The loop shape shared by the per-player stages: read each row in turn,
    and either stop the stage, skip the row, or assign an entry to a
    dictionary under the row's player id.  A later row with the same id
    replaces the entry but keeps its position. */
module Keyed {
  import opened Wrappers
  import opened Rows
  import opened OrderedDict

  /** What reading one row yields: an error that stops the stage, `None`
      for a row that is skipped, or an id with its entry. */
  type Read<T> = Result<Option<(string, T)>, StageError>

  function KeyOf<T>(x: Read<T>): Option<string> {
    if x.Success? && x.value.Some? then Some(x.value.value.0) else None
  }

  function Payload<T>(x: Read<T>): T
    requires KeyOf(x).Some?
  {
    x.value.value.1
  }

  /** The id each row is filed under, position by position. */
  function Keys<T>(rows: seq<Row>, read: Row -> Read<T>): (ks: seq<Option<string>>)
    ensures |ks| == |rows|
    ensures forall i :: 0 <= i < |rows| ==> ks[i] == KeyOf(read(rows[i]))
  {
    seq(|rows|, i requires 0 <= i < |rows| => KeyOf(read(rows[i])))
  }

  /** Index of the first position holding `k`, or `|ids|`. */
  function FirstIndex(ids: seq<Option<string>>, k: string): (n: nat)
    ensures n <= |ids|
    ensures n < |ids| ==> ids[n] == Some(k)
    ensures forall i :: 0 <= i < n ==> ids[i] != Some(k)
  {
    if |ids| == 0 then 0
    else
      var n := FirstIndex(ids[..|ids| - 1], k);
      if n < |ids| - 1 then n
      else if ids[|ids| - 1] == Some(k) then |ids| - 1
      else |ids|
  }

  /** The loop itself. */
  function Collect<T>(rows: seq<Row>, read: Row -> Read<T>): (r: Result<Dict<string, T>, StageError>)
    ensures r.Success? <==> forall i :: 0 <= i < |rows| ==> read(rows[i]).Success?
    ensures r.Success? ==> Valid(r.value)
  {
    if |rows| == 0 then Success(Empty())
    else
      var n := |rows| - 1;
      assert forall i :: 0 <= i < n ==> rows[..n][i] == rows[i];
      match Collect(rows[..n], read)
      case Failure(e) => Failure(e)
      case Success(d) =>
        match read(rows[n])
        case Failure(e) => Failure(e)
        case Success(None) => Success(d)
        case Success(Some(entry)) => Success(Put(d, entry.0, entry.1))
  }

  lemma KeysPrefix<T>(rows: seq<Row>, read: Row -> Read<T>)
    requires |rows| > 0
    ensures Keys(rows[..|rows| - 1], read) == Keys(rows, read)[..|rows| - 1]
  {
  }

  /** The dictionary holds exactly the ids some row is filed under. */
  lemma {:induction false} CollectKeys<T>(rows: seq<Row>, read: Row -> Read<T>)
    requires Collect(rows, read).Success?
    ensures forall k :: k in Collect(rows, read).value.values <==> HasId(Keys(rows, read), k)
    decreases |rows|
  {
    if |rows| > 0 {
      var n := |rows| - 1;
      var ids := Keys(rows, read);
      KeysPrefix(rows, read);
      CollectKeys(rows[..n], read);
      forall k ensures HasId(ids, k) <==> HasId(ids[..n], k) || ids[n] == Some(k) {
        if HasId(ids, k) && ids[n] != Some(k) {
          var i :| 0 <= i < |ids| && ids[i] == Some(k);
          assert ids[..n][i] == Some(k);
        }
      }
    }
  }

  /** An id already held before the last position is first found there. */
  lemma FirstIndexOfPresent(ids: seq<Option<string>>, k: string)
    requires |ids| > 0 && HasId(ids[..|ids| - 1], k)
    ensures FirstIndex(ids, k) == FirstIndex(ids[..|ids| - 1], k) < |ids| - 1
  {
    var w :| 0 <= w < |ids| - 1 && ids[..|ids| - 1][w] == Some(k);
  }

  /** An id held only at the last position is first found there. */
  lemma FirstIndexOfNew(ids: seq<Option<string>>, k: string)
    requires |ids| > 0 && !HasId(ids[..|ids| - 1], k) && ids[|ids| - 1] == Some(k)
    ensures FirstIndex(ids, k) == |ids| - 1
  {
  }

  /** The ids are listed in the order of their first rows. */
  lemma {:induction false} CollectOrder<T>(rows: seq<Row>, read: Row -> Read<T>)
    requires Collect(rows, read).Success?
    ensures var d := Collect(rows, read).value;
            forall i, j :: 0 <= i < j < |d.keys| ==>
              FirstIndex(Keys(rows, read), d.keys[i]) < FirstIndex(Keys(rows, read), d.keys[j])
    decreases |rows|
  {
    if |rows| > 0 {
      var n := |rows| - 1;
      var ids := Keys(rows, read);
      KeysPrefix(rows, read);
      CollectOrder(rows[..n], read);
      CollectKeys(rows[..n], read);
      var d := Collect(rows[..n], read).value;
      forall i | 0 <= i < |d.keys| ensures FirstIndex(ids, d.keys[i]) == FirstIndex(ids[..n], d.keys[i]) < n {
        assert d.keys[i] in d.values;
        FirstIndexOfPresent(ids, d.keys[i]);
      }
      var x := read(rows[n]);
      if x.value.Some? && x.value.value.0 !in d.values {
        var k := x.value.value.0;
        FirstIndexOfNew(ids, k);
        assert Collect(rows, read).value.keys == d.keys + [k];
      }
    }
  }

  /** Each id's entry comes from the last row filed under it. */
  lemma {:induction false} CollectLastWins<T>(rows: seq<Row>, read: Row -> Read<T>)
    requires Collect(rows, read).Success?
    ensures var d := Collect(rows, read).value;
            forall k :: k in d.values ==>
              && LastIndex(Keys(rows, read), k) >= 0
              && d.values[k] == Payload(read(rows[LastIndex(Keys(rows, read), k)]))
    decreases |rows|
  {
    if |rows| > 0 {
      var n := |rows| - 1;
      var ids := Keys(rows, read);
      KeysPrefix(rows, read);
      CollectLastWins(rows[..n], read);
      var d := Collect(rows[..n], read).value;
      var r := Collect(rows, read).value;
      var x := read(rows[n]);
      assert r.values == if KeyOf(x).Some? then d.values[KeyOf(x).value := Payload(x)] else d.values;
      forall k | k in r.values && ids[n] != Some(k)
        ensures LastIndex(ids, k) == LastIndex(ids[..n], k) >= 0
        ensures r.values[k] == d.values[k]
        ensures Payload(read(rows[..n][LastIndex(ids[..n], k)])) == Payload(read(rows[LastIndex(ids, k)]))
      {
      }
    }
  }
}
