/**
  The extension of the DDK driver with one handler running at a time: statistics, the activity timer, the
  blink work and the proc commands.  Every handler is a sequence of the protocol's steps.
 */
module DdkExtDriver {
  import opened DdkExt
  import opened Kernel

  const TIMER_DEF_MS := 1000
  const BLINK_DEF_CNT := 3
  const BLINK_DEF_MS := 200

  /** A command line after parsing.  One without a number leaves `val` as it was, whatever that is. */
  datatype ProcCommand =
    | NoCommand | Timer(val: int) | Interval(val: int) | BlinkTimes(val: int) | Delay(val: int) | ResetCounters | UnknownCommand

  /** What the statistics are about. */
  datatype Event = Succeeded(len: nat) | Failed | Blinked(count: int) | CountersReset | Silent

  datatype Totals = Totals(success: nat, fail: nat, blinks: nat, lastLen: nat)

  function Wrap32(n: int): nat {
    n % 0x1_0000_0000
  }

  function Wrap64(n: int): nat {
    n % 0x1_0000_0000_0000_0000
  }

  function Counted(t: Totals, e: Event): Totals {
    match e
    case Succeeded(len) => t.(success := Wrap64(t.success + 1), lastLen := Wrap32(len))
    case Failed => t.(fail := Wrap64(t.fail + 1))
    case Blinked(count) => t.(blinks := Wrap64(t.blinks + count))
    case CountersReset => Totals(0, 0, 0, 0)
    case Silent => t
  }

  ghost function Replay(log: seq<Event>): Totals {
    if log == [] then Totals(0, 0, 0, 0) else Counted(Replay(log[..|log| - 1]), log[|log| - 1])
  }

  // ----- the light

  /** The light goes on and off `n` times. */
  ghost function Flashes(n: int): seq<bool>
    decreases Max(0, n)
  {
    if n <= 0 then [] else Flashes(n - 1) + [true, false]
  }

  /** So it is on and off by turns, as often as that, and off at the end. */
  lemma {:induction false} FlashesAlternate(n: nat)
    ensures |Flashes(n)| == 2 * n && forall k :: 0 <= k < 2 * n ==> (Flashes(n)[k] <==> k % 2 == 0)
  {
    if n > 0 {
      FlashesAlternate(n - 1);
    }
  }

  lemma {:induction false} FlashesAdd(m: nat, n: int)
    ensures Flashes(m) + Flashes(n) == Flashes(m + Max(0, n))
    decreases Max(0, n)
  {
    if n <= 0 {
      assert Flashes(m) + [] == Flashes(m);
    } else {
      FlashesAdd(m, n - 1);
      assert Flashes(m) + (Flashes(n - 1) + [true, false]) == Flashes(m) + Flashes(n - 1) + [true, false];
    }
  }

  /** How often the light went on since the counters were reset. */
  ghost function FlashesOf(log: seq<Event>): nat {
    if log == [] then 0 else
      var e := log[|log| - 1];
      if e.CountersReset? then 0 else FlashesOf(log[..|log| - 1]) + if e.Blinked? then Max(0, e.count) else 0
  }

  lemma Wrapped(n: int)
    ensures Wrap32(n) == n % 0x1_0000_0000 && Wrap64(n) == n % 0x1_0000_0000_0000_0000
  {
  }

  lemma WrapSum(a: int, b: int)
    ensures Wrap64(Wrap64(a) + b) == Wrap64(a + b)
  {
  }

  lemma WrapLess(a: int, b: nat)
    ensures b < 0x1_0000_0000_0000_0000 ==> (Wrap64(a - b) == Wrap64(a) <==> b == 0)
  {
  }

  /** By how much negative blink counts have lowered the statistics since they were reset. */
  ghost function Shortfall(log: seq<Event>): nat {
    if log == [] then 0 else
      var e := log[|log| - 1];
      if e.CountersReset? then 0 else Shortfall(log[..|log| - 1]) + if e.Blinked? && e.count < 0 then -e.count else 0
  }

  /**
    The blink statistics say how often the light went on since they were reset, less the shortfall: so
    they are right exactly if no run had a negative count, as long as the shortfall does not wrap.
   */
  lemma {:induction false} BlinksAreFlashes(log: seq<Event>)
    ensures Replay(log).blinks == Wrap64(FlashesOf(log) - Shortfall(log))
    ensures Shortfall(log) < 0x1_0000_0000_0000_0000 ==> (Replay(log).blinks == Wrap64(FlashesOf(log)) <==> Shortfall(log) == 0)
  {
    WrapLess(FlashesOf(log), Shortfall(log));
    assert Wrap64(0) == 0;
    if log != [] {
      hide Wrap64;
      var front, e := log[..|log| - 1], log[|log| - 1];
      BlinksAreFlashes(front);
      if e.Blinked? {
        WrapSum(FlashesOf(front) - Shortfall(front), e.count);
      }
    }
  }

  /** There is a shortfall exactly if some run since the last reset had a negative count. */
  lemma {:induction false} ShortfallMeans(log: seq<Event>, from: nat)
    requires from <= |log| && (0 < from ==> log[from - 1].CountersReset?)
    requires forall i :: from <= i < |log| ==> !log[i].CountersReset?
    ensures 0 < Shortfall(log) <==> exists i :: from <= i < |log| && log[i].Blinked? && log[i].count < 0
  {
    if from < |log| {
      ShortfallMeans(log[..|log| - 1], from);
    }
  }

  lemma Truncated(n: int)
    ensures -0x8000_0000 <= ToInt(n) < 0x8000_0000
    ensures ToInt(n) < 0 <==> 0x8000_0000 <= Wrap32(n)
  {
  }

  // ----- what the handlers do, for reference

  /** What happens to a driver in service. */
  datatype Call = Success(len: nat) | Fail | TimerExpires | WorkRuns | Command(cmd: ProcCommand, fault: bool)

  datatype Settings = Settings(timerEnabled: bool, intervalMs: int, blinkCount: int, blinkDelayMs: int, armed: bool, queued: bool)

  const INITIAL := Settings(false, TIMER_DEF_MS, BLINK_DEF_CNT, BLINK_DEF_MS, false, false)

  /** What a command changes; numbers that are not positive are ignored. */
  function Commanded(v: Settings, cmd: ProcCommand): Settings {
    match cmd
    case Timer(val) => v.(timerEnabled := val != 0, armed := v.armed && val != 0)
    case Interval(val) => if val > 0 then v.(intervalMs := val) else v
    case BlinkTimes(val) => if val > 0 then v.(blinkCount := ToInt(val)) else v
    case Delay(val) => if val > 0 then v.(blinkDelayMs := ToInt(val)) else v
    case _ => v
  }

  /** A timer that is not armed does not fire, and work that is not queued does not run. */
  function Respond(v: Settings, c: Call): (Settings, Event) {
    match c
    case Success(len) => (if v.timerEnabled then v.(armed := true) else v.(queued := true), Succeeded(len))
    case Fail => (v, Failed)
    case TimerExpires => (if v.armed then v.(queued := true) else v, Silent)
    case WorkRuns => if v.queued then (v.(queued := false), Blinked(v.blinkCount)) else (v, Silent)
    case Command(cmd, fault) =>
      if fault then (v, Silent) else (Commanded(v, cmd), if cmd.ResetCounters? then CountersReset else Silent)
  }

  ghost function AfterAll(calls: seq<Call>): Settings {
    if calls == [] then INITIAL else Respond(AfterAll(calls[..|calls| - 1]), calls[|calls| - 1]).0
  }

  /** The events of a sequence of calls, one for each. */
  ghost function Log(calls: seq<Call>): (log: seq<Event>)
    ensures |log| == |calls|
  {
    if calls == [] then [] else
      var front := calls[..|calls| - 1];
      Log(front) + [Respond(AfterAll(front), calls[|calls| - 1]).1]
  }

  ghost function AllFlashes(log: seq<Event>): nat {
    if log == [] then 0 else
      AllFlashes(log[..|log| - 1]) + if log[|log| - 1].Blinked? then Max(0, log[|log| - 1].count) else 0
  }

  lemma LogGrows(calls: seq<Call>, i: nat)
    requires i < |calls|
    ensures AfterAll(calls[..i + 1]) == Respond(AfterAll(calls[..i]), calls[i]).0
    ensures Log(calls[..i + 1]) == Log(calls[..i]) + [Respond(AfterAll(calls[..i]), calls[i]).1]
  {
    assert calls[..i + 1][..i] == calls[..i];
  }

  lemma LogStarts()
    ensures Log([]) == [] && AfterAll([]) == INITIAL && AllFlashes([]) == 0 && Flashes(0) == []
  {
  }

  lemma OneMore(log: seq<Event>, e: Event)
    ensures Replay(log + [e]) == Counted(Replay(log), e)
    ensures AllFlashes(log + [e]) == AllFlashes(log) + if e.Blinked? then Max(0, e.count) else 0
  {
    hide Counted;
    assert (log + [e])[..|log|] == log;
  }

  /** No command makes the blink count wrap to a negative number. */
  predicate Tame(calls: seq<Call>) {
    forall i :: 0 <= i < |calls| && calls[i].Command? && calls[i].cmd.BlinkTimes? ==> Wrap32(calls[i].cmd.val) < 0x8000_0000
  }

  lemma {:induction false} TameHasNoShortfall(calls: seq<Call>)
    requires Tame(calls)
    ensures 0 <= AfterAll(calls).blinkCount && Shortfall(Log(calls)) == 0
  {
    if calls != [] {
      var front, last := calls[..|calls| - 1], calls[|calls| - 1];
      TameHasNoShortfall(front);
      assert Log(calls)[..|calls| - 1] == Log(front);
      if last.Command? && last.cmd.BlinkTimes? {
        Truncated(last.cmd.val);
      }
      hide ToInt, Wrap32;
    }
  }

  /**
    A blink count that wraps to a negative number, a write and a run of the work: the light stays dark, and
    the statistics are a negative number of times that it went on.
   */
  lemma BlinkCountWraps(n: nat, len: nat)
    requires ToInt(n) < 0 < n
    ensures var log := Log([Command(BlinkTimes(n), false), Success(len), WorkRuns]);
      && log[2] == Blinked(ToInt(n)) && FlashesOf(log) == 0 && AllFlashes(log) == 0
      && Replay(log).blinks == Wrap64(ToInt(n)) != FlashesOf(log)
  {
    var calls := [Command(BlinkTimes(n), false), Success(len), WorkRuns];
    Truncated(n);
    hide ToInt, Wrap32;
    LogGrows(calls, 0);
    LogGrows(calls, 1);
    LogGrows(calls, 2);
    assert calls[..0] == [] && calls[..3] == calls;
    var log := Log(calls);
    assert log == [Silent, Succeeded(len), Blinked(ToInt(n))];
    hide Log;
    OfThree(log);
    WrapLess(0, -ToInt(n));
    assert Wrap64(0) == 0;
  }

  lemma OfThree(log: seq<Event>)
    requires |log| == 3 && log[0].Silent? && log[1].Succeeded? && log[2].Blinked?
    ensures Replay(log).blinks == Wrap64(log[2].count)
    ensures FlashesOf(log) == AllFlashes(log) == Max(0, log[2].count)
  {
    var two := log[..2];
    var one := two[..1];
    assert one[..0] == [];
    assert Replay(one).blinks == 0 && FlashesOf(one) == 0 && AllFlashes(one) == 0;
    assert Replay(two).blinks == 0 && FlashesOf(two) == 0 && AllFlashes(two) == 0;
    hide Wrap64;
  }

  /** The smallest such number. */
  lemma FirstToWrap(n: nat)
    requires 0 < n < 0x8000_0000
    ensures 0 < ToInt(n) && ToInt(0x8000_0000) == -0x8000_0000
  {
  }

  class Ext {
    var totalSuccess: nat
    var totalFail: nat
    var totalBlinks: nat
    var lastWriteLen: nat
    var timerEnabled: bool
    var intervalMs: int
    var blinkCount: int
    var blinkDelayMs: int
    var workPending: bool
    var procEntry: bool
    var armed: bool
    var queued: bool

    ghost var led: seq<bool>
    ghost var stage: Cleanup
    ghost var accepted: nat
    ghost var runs: nat
    ghost var firings: nat

    ghost function View(): State
      reads this
    {
      State(timerEnabled, workPending, blinkCount, armed, NoCallback, queued, NoWork, [NotWriting], stage, accepted, runs, firings)
    }

    ghost function Current(): Settings
      reads this
    {
      Settings(timerEnabled, intervalMs, blinkCount, blinkDelayMs, armed, queued)
    }

    ghost function Statistics(): Totals
      reads this
    {
      Totals(totalSuccess, totalFail, totalBlinks, lastWriteLen)
    }

    /** Between handlers, work is pending exactly while it is queued, and the timer runs only while enabled. */
    ghost predicate Valid()
      reads this
    {
      && (workPending <==> queued) && accepted == runs + (if queued then 1 else 0)
      && (armed ==> timerEnabled)
      && -0x8000_0000 <= blinkCount < 0x8000_0000
      && stage == (if procEntry then Serving else WorkCancelled)
    }

    constructor ()
      ensures Valid() && procEntry && Init(View()) && Current() == INITIAL && Statistics() == Replay([]) && led == []
    {
      totalSuccess, totalFail, totalBlinks, lastWriteLen := 0, 0, 0, 0;
      timerEnabled, intervalMs, blinkCount, blinkDelayMs, workPending := false, TIMER_DEF_MS, BLINK_DEF_CNT, BLINK_DEF_MS, false;
      procEntry, armed, queued := true, false, false;
      led, stage, accepted, runs, firings := [], Serving, 0, 0, 0;
    }

    /** Queues the work, unless a run of it is on its way. */
    method QueueWork()
      modifies `workPending, `queued, `accepted
      ensures View() == Request(old(View()))
    {
      if !workPending {
        workPending, queued := true, true;
        accepted := accepted + 1;
      }
    }

    /** A write that succeeded arms the timer, or without the timer has the work done at once. */
    method OnWriteSuccess(len: nat)
      requires Valid()
      modifies `totalSuccess, `lastWriteLen, `armed, `workPending, `queued, `accepted
      ensures Valid() && Statistics() == Counted(old(Statistics()), Succeeded(len))
      ensures Do(old(View()), [WriteSucceeds(0), if old(timerEnabled) then ModTimer(0) else QueueDirectly(0)]) == Some(View())
      ensures Current() == Respond(old(Current()), Success(len)).0
      ensures totalSuccess == (old(totalSuccess) + 1) % 0x1_0000_0000_0000_0000 && lastWriteLen == len % 0x1_0000_0000
      ensures if timerEnabled then armed && queued == old(queued) else queued && armed == old(armed)
    {
      Wrapped(totalSuccess + 1);
      Wrapped(len);
      hide Do, Wrap64, Wrap32;
      totalSuccess, lastWriteLen := Wrap64(totalSuccess + 1), Wrap32(len);
      var te := timerEnabled;
      if te {
        armed := true;
      } else {
        QueueWork();
      }
      assert [NotWriting][0 := SawEnabled][0 := NotWriting] == [NotWriting][0 := SawDisabled][0 := NotWriting] == [NotWriting];
      DoTwo(old(View()), WriteSucceeds(0), if te then ModTimer(0) else QueueDirectly(0));
    }

    method OnWriteFail()
      requires Valid()
      modifies `totalFail
      ensures Valid() && View() == old(View()) && Statistics() == Counted(old(Statistics()), Failed)
      ensures totalFail == (old(totalFail) + 1) % 0x1_0000_0000_0000_0000
    {
      totalFail := Wrap64(totalFail + 1);
    }

    /** The armed timer fires: it queues the work and arms itself again while it is enabled. */
    method TimerCallback()
      requires Valid() && armed
      modifies `armed, `workPending, `queued, `accepted, `firings
      ensures Valid() && queued && armed
      ensures Do(old(View()), [Fire, CallbackSection, Rearm]) == Some(View())
    {
      armed, firings := false, firings + 1;
      var enabled := timerEnabled;
      QueueWork();
      if enabled {
        armed := true;
      }
      DoThree(old(View()), Fire, CallbackSection, Rearm);
    }

    /** The queued work runs: the light goes on and off as often as the count says, and ends off. */
    method BlinkWorker() returns (count: int, ghost steps: seq<Action>)
      requires Valid() && queued
      modifies `queued, `workPending, `totalBlinks, `led, `runs
      ensures Valid() && !queued && count == blinkCount
      ensures led == old(led) + Flashes(count) && Statistics() == Counted(old(Statistics()), Blinked(count))
      ensures totalBlinks == (old(totalBlinks) + count) % 0x1_0000_0000_0000_0000
      ensures |steps| == 3 + Max(0, count) && Do(old(View()), steps) == Some(View())
    {
      hide Do, Wrap64;
      DoTwo(old(View()), StartWork, Snapshot);
      steps := [StartWork, Snapshot];
      queued := false;
      count := blinkCount;
      workPending, runs := false, runs + 1;
      var i := 0;
      while i < count
        invariant unchanged(`totalBlinks) && !queued && !workPending && runs == old(runs) + 1
        invariant 0 <= i <= Max(0, count) && led == old(led) + Flashes(i)
        invariant |steps| == 2 + i && Do(old(View()), steps) == Some(View().(worker := Blinking(count, i)))
      {
        DoMore(old(View()), steps, Blink);
        steps := steps + [Blink];
        led := led + [true];
        led := led + [false];
        assert led == old(led) + (Flashes(i) + [true, false]);
        i := i + 1;
      }
      Wrapped(totalBlinks + count);
      totalBlinks := Wrap64(totalBlinks + count);
      DoMore(old(View()), steps, EndWork);
      steps := steps + [EndWork];
    }

    /** A command written to the proc entry. */
    method ProcWrite(cmd: ProcCommand, fault: bool) returns (r: Result<()>)
      requires Valid() && procEntry
      modifies `totalSuccess, `totalFail, `totalBlinks, `lastWriteLen, `timerEnabled, `intervalMs, `blinkCount, `blinkDelayMs, `armed
      ensures Valid()
      ensures r == if fault then Err(EFAULT) else if cmd.NoCommand? || cmd.UnknownCommand? then Err(EINVAL) else Ok(())
      ensures r.Err? ==> unchanged(this)
      ensures Statistics() == Counted(old(Statistics()), if r.Ok? && cmd.ResetCounters? then CountersReset else Silent)
      ensures r.Ok? ==> Do(old(View()), [match cmd
        case Timer(val) => TimerCommand(val != 0)
        case BlinkTimes(val) => BlinkCommand(val)
        case _ => OtherCommand]) == Some(View())
      ensures r.Ok? ==> Current() == Commanded(old(Current()), cmd)
      ensures r.Ok? ==> timerEnabled == (if cmd.Timer? then cmd.val != 0 else old(timerEnabled))
      ensures r.Ok? ==> armed == (old(armed) && !(cmd.Timer? && cmd.val == 0))
      ensures r.Ok? ==> intervalMs == if cmd.Interval? && 0 < cmd.val then cmd.val else old(intervalMs)
      ensures !(cmd.BlinkTimes? && 0 < cmd.val) ==> blinkCount == old(blinkCount)
      ensures !(cmd.Delay? && 0 < cmd.val) ==> blinkDelayMs == old(blinkDelayMs)
      ensures r.Ok? && cmd.BlinkTimes? && 0 < cmd.val < 0x8000_0000 ==> blinkCount == cmd.val
      ensures r.Ok? && cmd.Delay? && 0 < cmd.val < 0x8000_0000 ==> blinkDelayMs == cmd.val
      ensures if r.Ok? && cmd.ResetCounters? then totalSuccess == totalFail == totalBlinks == lastWriteLen == 0
              else unchanged(`totalSuccess, `totalFail, `totalBlinks, `lastWriteLen)
      ensures 0 <= old(blinkCount) ==> (blinkCount < 0 <==> r.Ok? && cmd.BlinkTimes? && 0 < cmd.val && 0x8000_0000 <= Wrap32(cmd.val))
    {
      hide Do, ToInt, Wrap32;
      if fault {
        return Err(EFAULT);
      }
      if cmd.NoCommand? || cmd.UnknownCommand? {
        return Err(EINVAL);
      }
      Obey(cmd);
      DoOne(old(View()), match cmd
        case Timer(val) => TimerCommand(val != 0)
        case BlinkTimes(val) => BlinkCommand(val)
        case _ => OtherCommand);
      r := Ok(());
    }

    /** The branches of the commands. */
    method Obey(cmd: ProcCommand)
      modifies `totalSuccess, `totalFail, `totalBlinks, `lastWriteLen, `timerEnabled, `intervalMs, `blinkCount, `blinkDelayMs, `armed
      ensures Current() == Commanded(old(Current()), cmd)
      ensures Statistics() == if cmd.ResetCounters? then Totals(0, 0, 0, 0) else old(Statistics())
      ensures cmd.BlinkTimes? && 0 < cmd.val ==> -0x8000_0000 <= blinkCount < 0x8000_0000 && (blinkCount < 0 <==> 0x8000_0000 <= Wrap32(cmd.val))
      ensures timerEnabled == (if cmd.Timer? then cmd.val != 0 else old(timerEnabled)) && armed == (old(armed) && !(cmd.Timer? && cmd.val == 0))
      ensures intervalMs == if cmd.Interval? && 0 < cmd.val then cmd.val else old(intervalMs)
      ensures if cmd.BlinkTimes? && 0 < cmd.val then cmd.val < 0x8000_0000 ==> blinkCount == cmd.val else blinkCount == old(blinkCount)
      ensures if cmd.Delay? && 0 < cmd.val then cmd.val < 0x8000_0000 ==> blinkDelayMs == cmd.val else blinkDelayMs == old(blinkDelayMs)
    {
      hide ToInt, Wrap32;
      match cmd {
        case Timer(val) =>
          timerEnabled := val != 0;
          if !timerEnabled {
            armed := false;
          }
        case Interval(val) =>
          if val > 0 {
            intervalMs := val;
          }
        case BlinkTimes(val) =>
          if val > 0 {
            Truncated(val);
            StoredNumber(val);
            blinkCount := ToInt(val);
          }
        case Delay(val) =>
          if val > 0 {
            StoredNumber(val);
            blinkDelayMs := ToInt(val);
          }
        case ResetCounters =>
          totalSuccess, totalFail, totalBlinks, lastWriteLen := 0, 0, 0, 0;
        case _ =>
      }
    }

    /** Takes the proc entry away, stops the timer and cancels the work, in this order. */
    method Cleanup()
      requires Valid() && procEntry
      modifies `procEntry, `armed, `queued, `stage
      ensures Quiet(View()) && !procEntry
      ensures Do(old(View()), [RemoveProc, DeleteTimer, CancelWork]) == Some(View())
    {
      procEntry, stage := false, ProcRemoved;
      armed, stage := false, TimerDeleted;
      queued, stage := false, WorkCancelled;
      DoThree(old(View()), RemoveProc, DeleteTimer, CancelWork);
    }
  }

  /** One handler does what the reference says, to the statistics and the light as well. */
  method Handle(ext: Ext, c: Call, ghost flashes: nat) returns (e: Event)
    requires ext.Valid() && ext.procEntry && ext.led == Flashes(flashes)
    modifies ext
    ensures ext.Valid() && ext.procEntry && ext.Statistics() == Counted(old(ext.Statistics()), e)
    ensures ext.led == Flashes(flashes + if e.Blinked? then Max(0, e.count) else 0)
    ensures (ext.Current(), e) == Respond(old(ext.Current()), c)
  {
    hide Flashes, Do, ToInt, Wrap32, Wrap64;
    e := Silent;
    match c {
      case Success(len) =>
        ext.OnWriteSuccess(len);
        e := Succeeded(len);
      case Fail =>
        ext.OnWriteFail();
        e := Failed;
      case TimerExpires =>
        if ext.armed {
          ext.TimerCallback();
        }
      case WorkRuns =>
        if ext.queued {
          var count, _ := ext.BlinkWorker();
          FlashesAdd(flashes, count);
          e := Blinked(count);
        }
      case Command(cmd, fault) =>
        var r := ext.ProcWrite(cmd, fault);
        e := if r.Ok? && cmd.ResetCounters? then CountersReset else Silent;
    }
  }

  /**
    Any sequence of handlers: each makes its event, the statistics are those of the events since the last
    reset, and the light has flashed as often as the runs say and is off.  If no command made the blink
    count wrap to a negative number, the blink statistics are the true number of flashes.
   */
  method Run(calls: seq<Call>) returns (ext: Ext, log: seq<Event>)
    ensures ext.Valid() && log == Log(calls) && ext.Current() == AfterAll(calls)
    ensures ext.Statistics() == Replay(log) && ext.led == Flashes(AllFlashes(log))
    ensures ext.totalBlinks == Wrap64(FlashesOf(log) - Shortfall(log))
    ensures Tame(calls) ==> Shortfall(log) == 0 && ext.totalBlinks == Wrap64(FlashesOf(log))
  {
    hide Respond, Counted, Flashes, FlashesOf, Shortfall, Wrap64, Wrap32, ToInt, Tame, Replay, AllFlashes, Log, AfterAll, Ext.Valid, Init;
    ext := new Ext();
    log := [];
    LogStarts();
    for i := 0 to |calls|
      invariant ext.Valid() && ext.procEntry && fresh(ext)
      invariant log == Log(calls[..i]) && ext.Current() == AfterAll(calls[..i])
      invariant ext.Statistics() == Replay(log) && ext.led == Flashes(AllFlashes(log))
    {
      LogGrows(calls, i);
      var e := Handle(ext, calls[i], AllFlashes(log));
      OneMore(log, e);
      log := log + [e];
    }
    assert calls[..|calls|] == calls;
    BlinksAreFlashes(log);
    if Tame(calls) {
      TameHasNoShortfall(calls);
    }
  }
}
