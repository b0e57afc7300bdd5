/** The pacer as the object that keeps the window list and the queue (bounty-defaults.ts). */
module BountyPacing {
  import opened PacingProtocol

  class BountyPacer {
    var clock: int
    var admitted: seq<int>
    var stopped: bool
    var queue: seq<Request>
    var asked: nat
    ghost var times: seq<int>
    ghost var served: seq<nat>
    ghost var refused: seq<nat>

    ghost function View(): Pacer
      reads this
    {
      Pacer(clock, admitted, stopped, queue, asked, times, served, refused)
    }

    constructor (now: int)
      ensures View() == Initial(now)
    {
      clock, admitted, stopped, queue, asked := now, [], false, [], 0;
      times, served, refused := [], [], [];
    }

    /** A request comes in; only once its base check has passed is the clock read, and it queues up. */
    method Ask(basePasses: bool, now: int)
      requires now >= clock
      modifies this
      ensures View() == Next(old(View()), PacingProtocol.Ask(basePasses, now))
    {
      if !basePasses { return; }
      clock := now;
      queue := queue + [Request(asked, now)];
      asked := asked + 1;
    }

    /** Forget admissions that are a second old. */
    method Filter(now: int)
      modifies this`admitted
      ensures admitted == Recent(old(admitted), now)
    {
      var kept: seq<int> := [];
      var i := 0;
      while i < |admitted|
        invariant 0 <= i <= |admitted|
        invariant admitted == old(admitted)
        invariant kept + Recent(admitted[i..], now) == Recent(admitted, now)
      {
        assert admitted[i..][1..] == admitted[i + 1..];
        if admitted[i] > now - WINDOW_MS { kept := kept + [admitted[i]]; }
        i := i + 1;
      }
      admitted := kept;
    }

    /** The head of the queue takes its turn: it is admitted, refused, or told how long to sleep. */
    method Look(now: int) returns (verdict: Verdict)
      requires queue != [] && now >= clock
      modifies this
      ensures View() == Next(old(View()), PacingProtocol.Look(now))
      ensures verdict.Admit? <==> times == old(times) + [now]
      ensures verdict.Refuse? <==> refused == old(refused) + [old(queue)[0].id]
      ensures verdict.Sleep? ==>
        verdict.ms >= 1 && now + verdict.ms <= queue[0].enqueued + PATIENCE_MS && queue == old(queue)
    {
      var head := queue[0];
      clock := now;
      if stopped {
        verdict := Refuse;
      } else {
        Filter(now);
        if |admitted| < LIMIT {
          verdict := Admit;
          admitted := admitted + [now];
          queue := queue[1..];
          times, served := times + [now], served + [head.id];
          return;
        }
        var due := admitted[0] + WINDOW_MS - now;
        var wait := if due < 1 then 1 else due;
        verdict := if now - head.enqueued + wait > PATIENCE_MS then Refuse else Sleep(wait);
      }
      if verdict.Refuse? {
        queue := queue[1..];
        refused := refused + [head.id];
      }
    }

    method StopPacing()
      modifies this`stopped
      ensures View() == Next(old(View()), PacingProtocol.StopPacing)
    {
      stopped := true;
    }
  }
}
