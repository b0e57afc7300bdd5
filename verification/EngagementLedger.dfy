/** The engagement ledger in its own form: one object whose methods update its fields.
  *
  * The suspended parts of the asynchronous methods are methods of their own: a queued write starts
  * and settles, a critical append resumes after its write and again after its sync.
  */
module EngagementLedger {
  import opened Options
  import opened EngagementChain
  import LP = LedgerProtocol

  datatype Task = Task(record: Record, closing: bool)

  class Ledger {
    const format: Format
    const closeData: (nat, nat, Option<LP.Why>) -> string
    const maxBytes: nat
    var seqNo: nat
    var prev: string
    var bytes: nat
    var dropped: nat
    var unavailable: Option<LP.Why>
    var closed: bool
    var writes: seq<Task>
    var head: LP.Head
    var done: nat
    var file: string  // the bytes the handle has put on file
    var criticals: seq<LP.Critical>
    var notices: seq<LP.Why>
    ghost var accepted: seq<Record>
    ghost var closing: Option<Record>
    ghost var durable: nat
    ghost var appends: nat

    ghost function View(): LP.Ledger
      reads this
    {
      LP.Ledger(maxBytes, prev, bytes, dropped, unavailable, closed, accepted, closing, done, head, file,
                durable, criticals, notices, appends)
    }

    /** The queue is what is left of the tasks, and `seqNo` counts the accepted records. */
    ghost predicate Valid()
      reads this
    {
      && seqNo == |accepted|
      && (closing.Some? <==> closed)
      && done <= |LP.Tasks(View())|
      && |writes| == |LP.Tasks(View())| - done
      && (forall i :: 0 <= i < |writes| ==>
            && writes[i].record == LP.Tasks(View())[done + i]
            && (writes[i].closing <==> done + i >= |accepted|))
      && (!head.Idle? ==> writes != [])
      && (head.Syncing? ==> writes[0].closing)
    }

    constructor (format: Format, closeData: (nat, nat, Option<LP.Why>) -> string, maxBytes: nat)
      ensures Valid() && View() == LP.Created(maxBytes)
      ensures this.format == format && this.closeData == closeData && this.maxBytes == maxBytes
    {
      this.format := format;
      this.closeData := closeData;
      this.maxBytes := maxBytes;
      seqNo, prev, bytes, dropped, unavailable, closed := 0, GENESIS, 0, 0, None, false;
      writes, head, criticals, notices := [], LP.Idle, [], [];
      accepted, closing, done, file, durable, appends := [], None, 0, "", 0, 0;
    }

    method MarkUnavailable(why: LP.Why)
      requires Valid()
      modifies `unavailable, `notices
      ensures Valid() && View() == LP.MarkUnavailable(old(View()), why)
    {
      if unavailable == Some(LP.WriteFailed) || unavailable == Some(why) { return; }
      var first := unavailable.None?;
      unavailable := Some(why);
      if first || why.WriteFailed? { notices := notices + [why]; }
    }

    method Append(at: string, kind: string, data: string)
      requires Valid()
      modifies this
      ensures Valid() && View() == LP.Append(format, old(View()), at, kind, data)
    {
      if closed { return; }
      if unavailable == Some(LP.WriteFailed) {
        Drop();
        return;
      }
      var body := Body(seqNo, at, kind, data);
      var record := Record(body, prev, format.hash(prev, body));
      if bytes + |format.encode(record) + "\n"| > maxBytes { Drop(); } else { Accept(record); }
    }

    method Drop()
      requires Valid()
      modifies `appends, `dropped, `unavailable, `notices
      ensures Valid() && View() == LP.Drop(old(View()))
    {
      appends := appends + 1;
      dropped := dropped + 1;
      MarkUnavailable(LP.Full);
    }

    method Accept(record: Record)
      requires Valid() && !closed
      modifies this
      ensures Valid() && View() == LP.Accept(format, old(View()), record)
    {
      Enqueue(record);
      if bytes >= maxBytes - LP.RESERVE_BYTES { MarkUnavailable(LP.Full); }
    }

    method Enqueue(record: Record)
      requires Valid() && !closed
      modifies this
      ensures Valid()
      ensures View() == old(View()).(appends := old(appends) + 1, prev := record.hash,
                                     bytes := old(bytes) + |LP.LineOf(format, record)|,
                                     accepted := old(accepted) + [record])
    {
      appends := appends + 1;
      prev := record.hash;
      seqNo := seqNo + 1;
      bytes := bytes + |format.encode(record) + "\n"|;
      accepted := accepted + [record];
      writes := writes + [Task(record, false)];
    }

    method Close(at: string)
      requires Valid()
      modifies this
      ensures Valid() && View() == LP.Close(format, old(View()), at, closeData)
    {
      if closed { return; }
      var body := Body(seqNo, at, CLOSED, closeData(seqNo, dropped, unavailable));
      var record := Record(body, prev, format.hash(prev, body));
      closed := true;
      closing := Some(record);
      writes := writes + [Task(record, true)];
    }

    method StartTask()
      requires Valid()
      modifies this
      ensures Valid() && View() == LP.StartTask(old(View()))
    {
      if !head.Idle? || writes == [] { return; }
      if unavailable == Some(LP.WriteFailed) {
        Settle();
      } else {
        head := LP.Writing;
      }
    }

    method Settle()
      requires Valid() && writes != []
      modifies this
      ensures Valid() && View() == old(View()).(head := LP.Idle, done := old(done) + 1)
    {
      head := LP.Idle;
      writes := writes[1..];
      done := done + 1;
    }

    method WriteReturns(n: nat, threw: bool)
      requires Valid() && head.Writing? && n <= |format.encode(writes[0].record)| + 1
      modifies this
      ensures Valid() && View() == LP.WriteReturns(format, old(View()), n, threw)
    {
      var line := format.encode(writes[0].record) + "\n";
      var last := writes[0].closing;
      file := file + line[..n];
      if threw || n < |line| {
        WriteFails(last);
      } else if last {
        head := LP.Syncing;
      } else {
        Settle();
      }
    }

    /** A short or failed write: announced, unless it was the closing record's. */
    method WriteFails(last: bool)
      requires Valid() && head.Writing? && last == writes[0].closing
      modifies this
      ensures Valid()
      ensures var settled := old(View()).(head := LP.Idle, done := old(View()).done + 1);
        View() == if last then settled.(unavailable := Some(LP.WriteFailed)) else LP.MarkUnavailable(settled, LP.WriteFailed)
    {
      Settle();
      if last { unavailable := Some(LP.WriteFailed); } else { MarkUnavailable(LP.WriteFailed); }
    }

    method ClosingSynced(ok: bool)
      requires Valid()
      modifies this
      ensures Valid() && View() == LP.ClosingSynced(old(View()), ok)
    {
      if !head.Syncing? { return; }
      Settle();
      if ok { durable := |file|; } else { unavailable := Some(LP.WriteFailed); }
    }

    method AppendCritical(at: string, kind: string, data: string)
      requires Valid()
      modifies this
      ensures Valid() && View() == LP.StartCritical(format, old(View()), at, kind, data)
    {
      if closed || unavailable.Some? {
        criticals := criticals + [LP.Refused];
        return;
      }
      var before := seqNo;
      Append(at, kind, data);
      criticals := criticals + [if seqNo <= before then LP.Refused else LP.AwaitWrites(before)];
    }

    /** Continues after the write it waits for, by starting its sync. */
    method ResumeCritical(c: nat)
      requires Valid() && c < |criticals|
      modifies this
      ensures Valid() && View() == LP.ResumeCritical(old(View()), c)
    {
      if criticals[c].AwaitWrites? && criticals[c].task < done {
        if closed || unavailable.Some? {
          criticals := criticals[c := LP.Refused];
        } else {
          criticals := criticals[c := LP.AwaitSync(criticals[c].task, |file|)];
        }
      }
    }

    /** Continues after its sync: it returns, or throws. */
    method CriticalSynced(c: nat, ok: bool)
      requires Valid() && c < |criticals|
      modifies this
      ensures Valid() && View() == LP.CriticalSynced(old(View()), c, ok)
    {
      if !criticals[c].AwaitSync? { return; }
      if !ok {
        MarkUnavailable(LP.WriteFailed);
        criticals := criticals[c := LP.Refused];
        return;
      }
      var covers := criticals[c].covers;
      durable := if durable < covers then covers else durable;
      criticals := criticals[c := if closed || unavailable.Some? then LP.Refused else LP.Acknowledged(criticals[c].task)];
    }
  }
}
