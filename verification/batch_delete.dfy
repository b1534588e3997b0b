/** `batch_delete_snapshots` and `batch_delete_screenshots`: remove each record from
    the store and then its file (a snapshot's backup, a screenshot's image), collecting
    every failure and reporting success only when there was none. The two commands
    differ only in which file goes and in their messages, so one model serves both. */
module BatchDelete {
  import opened Paths

  /** One requested id: whether the store finds the record, whether deleting it from
      the store succeeds, and for its file whether it exists and whether removing it
      succeeds. */
  datatype DeleteItem = DeleteItem(id: string, found: bool, storeOk: bool, file: Path, fileExists: bool, fileOk: bool)

  datatype DeleteError = NotFound(id: string) | StoreDeleteFailed(id: string) | FileDeleteFailed(id: string)

  datatype DeleteEffect = DeleteRecord(id: string) | RemoveFile(file: Path)

  datatype DeleteLog = DeleteLog(errors: seq<DeleteError>, trace: seq<DeleteEffect>)

  /** An item that goes through without an error. */
  predicate Clean(item: DeleteItem) {
    item.found && item.storeOk && (item.fileExists ==> item.fileOk)
  }

  /** The effects one item has, and the error it reports, if any: an error exactly when
      the item is not clean, and never more than one. */
  function DeleteOne(item: DeleteItem): (r: (seq<DeleteEffect>, seq<DeleteError>))
    ensures |r.1| <= 1 && (r.1 == [] <==> Clean(item))
  {
    if !item.found then ([], [NotFound(item.id)])
    else if !item.storeOk then ([], [StoreDeleteFailed(item.id)])
    else if !item.fileExists then ([DeleteRecord(item.id)], [])
    else if !item.fileOk then ([DeleteRecord(item.id)], [FileDeleteFailed(item.id)])
    else ([DeleteRecord(item.id), RemoveFile(item.file)], [])
  }

  /** The record goes when it is found and the store delete succeeds; the file goes only
      after that, and only when it exists and its removal succeeds. */
  lemma DeleteOneEffects(item: DeleteItem)
    ensures var effects := DeleteOne(item).0;
            && (DeleteRecord(item.id) in effects <==> item.found && item.storeOk)
            && (RemoveFile(item.file) in effects <==> Clean(item) && item.fileExists)
            && (RemoveFile(item.file) in effects ==> effects == [DeleteRecord(item.id), RemoveFile(item.file)])
  {
  }

  function CountUnclean(items: seq<DeleteItem>): nat
    decreases |items|
  {
    if |items| == 0 then 0 else (if Clean(items[0]) then 0 else 1) + CountUnclean(items[1..])
  }

  /** The loop over the requested ids: one error for each item that is not clean, the
      items' effects in request order. */
  function DeleteLoop(items: seq<DeleteItem>): (log: DeleteLog)
    ensures |log.errors| == CountUnclean(items)
    decreases |items|
  {
    if |items| == 0 then DeleteLog([], [])
    else
      var one, rest := DeleteOne(items[0]), DeleteLoop(items[1..]);
      DeleteLog(one.1 + rest.errors, one.0 + rest.trace)
  }

  /** Every file removal in `trace` belongs to one of `items` that was found, left the
      store and had a file. */
  predicate RemovalsAccounted(items: seq<DeleteItem>, trace: seq<DeleteEffect>) {
    forall i :: 0 <= i < |trace| && trace[i].RemoveFile? ==>
      exists k :: 0 <= k < |items| && items[k].file == trace[i].file
                  && items[k].found && items[k].storeOk && items[k].fileExists
  }

  /** A file is removed only once its record has gone from the store. */
  lemma {:induction false} RemovalsFollowRecordDeletion(items: seq<DeleteItem>)
    ensures RemovalsAccounted(items, DeleteLoop(items).trace)
    decreases |items|
  {
    if |items| > 0 {
      var effects := DeleteOne(items[0]).0;
      var rest := DeleteLoop(items[1..]).trace;
      RemovalsFollowRecordDeletion(items[1..]);
      var trace := DeleteLoop(items).trace;
      assert trace == effects + rest;
      forall i | 0 <= i < |trace| && trace[i].RemoveFile?
        ensures exists k :: 0 <= k < |items| && items[k].file == trace[i].file
                            && items[k].found && items[k].storeOk && items[k].fileExists
      {
        if i < |effects| {
          assert trace[i] == effects[i];
          DeleteOneEffects(items[0]);
        } else {
          var j := i - |effects|;
          assert trace[i] == rest[j] && rest[j].RemoveFile?;
          var k :| 0 <= k < |items[1..]| && items[1..][k].file == rest[j].file
                   && items[1..][k].found && items[1..][k].storeOk && items[1..][k].fileExists;
          assert items[1..][k] == items[k + 1];
        }
      }
    }
  }

  /** The loop over a concatenation is the two loops' logs concatenated: the batch is
      item after item, nothing carried across. */
  lemma DeleteLoopSplits(a: seq<DeleteItem>, b: seq<DeleteItem>)
    ensures DeleteLoop(a + b).errors == DeleteLoop(a).errors + DeleteLoop(b).errors
    ensures DeleteLoop(a + b).trace == DeleteLoop(a).trace + DeleteLoop(b).trace
  {
    ErrorsSplit(a, b);
    TraceSplit(a, b);
  }

  lemma {:induction false} ErrorsSplit(a: seq<DeleteItem>, b: seq<DeleteItem>)
    ensures DeleteLoop(a + b).errors == DeleteLoop(a).errors + DeleteLoop(b).errors
    decreases |a|
  {
    if |a| == 0 {
      assert a + b == b;
    } else {
      ErrorsSplit(a[1..], b);
      var ab := a + b;
      assert ab[0] == a[0] && ab[1..] == a[1..] + b;
      var e, t, u := DeleteOne(a[0]).1, DeleteLoop(a[1..]).errors, DeleteLoop(b).errors;
      assert DeleteLoop(ab).errors == e + (t + u);
      assert DeleteLoop(a).errors == e + t;
      assert e + (t + u) == (e + t) + u;
    }
  }

  lemma {:induction false} TraceSplit(a: seq<DeleteItem>, b: seq<DeleteItem>)
    ensures DeleteLoop(a + b).trace == DeleteLoop(a).trace + DeleteLoop(b).trace
    decreases |a|
  {
    if |a| == 0 {
      assert a + b == b;
    } else {
      TraceSplit(a[1..], b);
      var ab := a + b;
      assert ab[0] == a[0] && ab[1..] == a[1..] + b;
      var e, t, u := DeleteOne(a[0]).0, DeleteLoop(a[1..]).trace, DeleteLoop(b).trace;
      assert DeleteLoop(ab).trace == e + (t + u);
      assert DeleteLoop(a).trace == e + t;
      assert e + (t + u) == (e + t) + u;
    }
  }

  /** Each item's effects and error sit in the log between those of the items before it
      and those after it. */
  lemma {:induction false} DeleteLoopItem(items: seq<DeleteItem>, i: nat)
    requires i < |items|
    ensures var (effects, errors) := DeleteOne(items[i]);
            && DeleteLoop(items).trace == DeleteLoop(items[..i]).trace + effects + DeleteLoop(items[i + 1..]).trace
            && DeleteLoop(items).errors == DeleteLoop(items[..i]).errors + errors + DeleteLoop(items[i + 1..]).errors
  {
    var before, tail := items[..i], items[i + 1..];
    assert items == before + ([items[i]] + tail);
    DeleteLoopSplits(before, [items[i]] + tail);
    DeleteLoopCons(items[i], tail);
    var p, t := DeleteLoop(before), DeleteLoop(tail);
    var (effects, errors) := DeleteOne(items[i]);
    assert p.trace + (effects + t.trace) == p.trace + effects + t.trace;
    assert p.errors + (errors + t.errors) == p.errors + errors + t.errors;
  }

  lemma {:induction false} DeleteLoopCons(item: DeleteItem, tail: seq<DeleteItem>)
    ensures DeleteLoop([item] + tail).errors == DeleteOne(item).1 + DeleteLoop(tail).errors
    ensures DeleteLoop([item] + tail).trace == DeleteOne(item).0 + DeleteLoop(tail).trace
  {
    assert ([item] + tail)[1..] == tail;
  }

  /** What happens to each requested id: a clean item with a file has its record deleted
      and its file removed; a failed item has its error reported; the record of an item
      that is not found, or whose store delete fails, is never reported deleted. */
  lemma {:induction false} DeleteLoopPerItem(items: seq<DeleteItem>, i: nat)
    requires i < |items|
    ensures var log, item := DeleteLoop(items), items[i];
            && (Clean(item) && item.fileExists ==> DeleteRecord(item.id) in log.trace && RemoveFile(item.file) in log.trace)
            && (Clean(item) && !item.fileExists ==> DeleteRecord(item.id) in log.trace)
            && (!item.found ==> NotFound(item.id) in log.errors)
            && (item.found && !item.storeOk ==> StoreDeleteFailed(item.id) in log.errors)
            && (item.found && item.storeOk && item.fileExists && !item.fileOk ==>
                  DeleteRecord(item.id) in log.trace && FileDeleteFailed(item.id) in log.errors)
  {
    DeleteLoopItem(items, i);
    DeleteOneEffects(items[i]);
  }

  /** The command's result: `Ok` when no item failed, otherwise one error per failed
      item. */
  function BatchDelete(items: seq<DeleteItem>): (r: DeleteResult)
    ensures r.Done? <==> CountUnclean(items) == 0
    ensures r.Failed? ==> |r.errors| == CountUnclean(items) > 0
  {
    var log := DeleteLoop(items);
    if |log.errors| > 0 then Failed(log.errors) else Done
  }

  datatype DeleteResult = Done | Failed(errors: seq<DeleteError>)

  lemma {:induction false} NoUncleanIffAllClean(items: seq<DeleteItem>)
    ensures CountUnclean(items) == 0 <==> forall i :: 0 <= i < |items| ==> Clean(items[i])
    decreases |items|
  {
    if |items| > 0 {
      NoUncleanIffAllClean(items[1..]);
      assert forall k :: 0 <= k < |items[1..]| ==> items[1..][k] == items[k + 1];
    }
  }

  /** The batch succeeds exactly when every item is found, leaves the store, and has its
      file removed or had none; otherwise every failed item is reported, once. */
  lemma BatchDeleteResult(items: seq<DeleteItem>)
    ensures BatchDelete(items).Done? <==> forall i :: 0 <= i < |items| ==> Clean(items[i])
    ensures BatchDelete(items).Failed? ==> |BatchDelete(items).errors| == CountUnclean(items)
  {
    NoUncleanIffAllClean(items);
  }
}
