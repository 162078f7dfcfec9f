/** Client traffic counters: how a durable total is advanced from volatile counters
    (internal/stats/accumulate.go), soft resets (internal/db), quota and expiry
    (internal/policy/policy.go). */
module Traffic {
  import opened Wrappers

  // ---- accumulating ----

  function AccumulateLifetime(lifetime: int, raw: int, prevRaw: int, hasPrev: bool): int {
    if hasPrev then
      if raw >= prevRaw then lifetime + (raw - prevRaw) else lifetime + raw
    else if raw >= lifetime then raw
    else lifetime
  }

  /** What the system keeps for one counter of one client: the stored total and soft-reset offset,
      and the previous observation made by this process. */
  datatype Meter = Meter(lifetime: int, offset: int, prev: Option<int>)

  /** One sampling of a connected client. */
  function Sampled(m: Meter, raw: int): Meter {
    Meter(AccumulateLifetime(m.lifetime, raw, if m.prev.Some? then m.prev.value else 0, m.prev.Some?), m.offset, Some(raw))
  }

  /** A soft reset of one counter. */
  function SoftReset(m: Meter): Meter { m.(offset := m.lifetime) }

  /** EffectiveRx and EffectiveTx. */
  function Effective(lifetime: int, offset: int): int {
    if lifetime - offset < 0 then 0 else lifetime - offset
  }

  // ---- runs against the true traffic ----

  /** What happens to one client. Session counters restart at zero whenever a session does. */
  datatype Step = Transfer(n: nat) | SessionRestart | Observe | DaemonRestart | Reset

  /** The meter, the session counter, and the truth: all bytes ever transferred, those since the
      last sample, whether the session restarted since then, and the bytes counted since the last
      soft reset. */
  datatype History = History(m: Meter, raw: nat, total: nat, unsampled: nat, restarted: bool, counted: int)

  const FRESH := History(Meter(0, 0, None), 0, 0, 0, false, 0)

  function Take(h: History, s: Step): History {
    match s
    case Transfer(n) => h.(raw := h.raw + n, total := h.total + n, unsampled := h.unsampled + n)
    case SessionRestart => h.(raw := 0, restarted := true)
    case Observe =>
      var m := Sampled(h.m, h.raw);
      h.(m := m, unsampled := 0, restarted := false, counted := h.counted + m.lifetime - h.m.lifetime)
    case DaemonRestart => h.(m := h.m.(prev := None))
    case Reset => h.(m := SoftReset(h.m), counted := 0)
  }

  function Run(steps: seq<Step>): History {
    if steps == [] then FRESH else Take(Run(steps[..|steps| - 1]), steps[|steps| - 1])
  }

  /** The durable total never exceeds the traffic up to the last sample, and the session counter
      never exceeds the traffic it can have seen. */
  ghost predicate Sound(h: History) {
    && 0 <= h.m.offset <= h.m.lifetime
    && h.raw <= h.total && h.raw <= h.m.lifetime + h.unsampled
    && h.m.lifetime + h.unsampled <= h.total
    && (h.m.prev.Some? ==> 0 <= h.m.prev.value <= h.m.lifetime)
    && (h.m.prev.Some? && !h.restarted ==> h.raw == h.m.prev.value + h.unsampled)
    && (h.restarted ==> h.raw <= h.unsampled)
    && h.counted == h.m.lifetime - h.m.offset
  }

  lemma TakeKeepsSound(h: History, s: Step)
    requires Sound(h)
    ensures Sound(Take(h, s))
    ensures h.m.lifetime <= Take(h, s).m.lifetime
  {
  }

  /** Over every run of traffic, session restarts, samples, daemon restarts and soft resets. */
  lemma {:induction false} EveryRunIsSound(steps: seq<Step>)
    ensures Sound(Run(steps))
  {
    if steps != [] {
      EveryRunIsSound(steps[..|steps| - 1]);
      TakeKeepsSound(Run(steps[..|steps| - 1]), steps[|steps| - 1]);
    }
  }

  lemma RunStep(init: seq<Step>, s: Step, steps: seq<Step>)
    requires steps == init + [s]
    ensures Run(steps) == Take(Run(init), s)
  {
    assert steps[..|steps| - 1] == init;
  }

  lemma SoundEffective(h: History)
    requires Sound(h)
    ensures h.m.lifetime <= h.total && Effective(h.m.lifetime, h.m.offset) == h.counted
  {
  }

  lemma {:induction false} LifetimeGrows(early: seq<Step>, more: seq<Step>)
    ensures Run(early).m.lifetime <= Run(early + more).m.lifetime
  {
    if more == [] {
      assert early + more == early;
    } else {
      var init, last := more[..|more| - 1], more[|more| - 1];
      LifetimeGrows(early, init);
      EveryRunIsSound(early + init);
      TakeKeepsSound(Run(early + init), last);
      RunStep(early + init, last, early + more);
    }
  }

  /** The lifetime total never falls, however a run goes on, and never exceeds the traffic that
      really took place; effective bytes are those counted since the last soft reset. */
  lemma LifetimeOverRuns(early: seq<Step>, more: seq<Step>)
    ensures Run(early).m.lifetime <= Run(early + more).m.lifetime <= Run(early + more).total
    ensures var h := Run(early + more); Effective(h.m.lifetime, h.m.offset) == h.counted
  {
    var steps := early + more;
    LifetimeGrows(early, more);
    EveryRunIsSound(steps);
    SoundEffective(Run(steps));
  }

  /** How much of the traffic since the last sample a sample adds, in every state a run reaches. */
  lemma GrowthExactly(h: History)
    requires Sound(h) && h.m.prev.Some?
    ensures var growth := Sampled(h.m, h.raw).lifetime - h.m.lifetime;
      && 0 <= growth <= h.unsampled
      && (!h.restarted ==> growth == h.unsampled == h.raw - h.m.prev.value)
      && (h.restarted ==> (growth == h.unsampled <==>
            h.raw == h.unsampled && (h.raw < h.m.prev.value || h.m.prev.value == 0)))
  {
  }

  predicate Undisturbed(s: Step) { !s.SessionRestart? && !s.DaemonRestart? }

  ghost predicate Exact(h: History) {
    && !h.restarted && h.m.lifetime + h.unsampled == h.total
    && (h.m.prev.None? ==> h.raw == h.total && h.m.lifetime == 0)
    && (h.m.prev.Some? ==> h.raw == h.m.prev.value + h.unsampled)
  }

  lemma ExactStep(h: History, s: Step)
    requires Exact(h) && Undisturbed(s)
    ensures Exact(Take(h, s))
    ensures s == Observe ==> Take(h, s).m.lifetime == Take(h, s).total
  {
  }

  lemma {:induction false} UndisturbedIsExact(steps: seq<Step>)
    requires forall i :: 0 <= i < |steps| ==> Undisturbed(steps[i])
    ensures Exact(Run(steps))
  {
    if steps != [] {
      var init, last := steps[..|steps| - 1], steps[|steps| - 1];
      UndisturbedIsExact(init);
      ExactStep(Run(init), last);
    }
  }

  /** With one session and one daemon process nothing is lost: after a sample the lifetime total
      is the true traffic. */
  lemma UndisturbedRunsAreExact(steps: seq<Step>)
    requires forall i :: 0 <= i < |steps| ==> Undisturbed(steps[i])
    ensures var h := Run(steps + [Observe]); h.m.lifetime == h.total
  {
    UndisturbedIsExact(steps);
    RunStep(steps, Observe, steps + [Observe]);
    ExactStep(Run(steps), Observe);
  }

  // ---- which samples lose nothing ----

  /** The bytes transferred in some steps. */
  function Bytes(steps: seq<Step>): nat {
    if steps == [] then 0
    else Bytes(steps[..|steps| - 1]) + if steps[|steps| - 1].Transfer? then steps[|steps| - 1].n else 0
  }

  /** How many steps come before the current session, and up to the last sample. */
  function SessionStart(steps: seq<Step>): (k: nat)
    ensures k <= |steps|
  {
    if steps == [] then 0 else if steps[|steps| - 1].SessionRestart? then |steps| else SessionStart(steps[..|steps| - 1])
  }

  function LastSample(steps: seq<Step>): (k: nat)
    ensures k <= |steps|
  {
    if steps == [] then 0 else if steps[|steps| - 1].Observe? then |steps| else LastSample(steps[..|steps| - 1])
  }

  /** The running daemon process has taken a sample. */
  predicate HasSampled(steps: seq<Step>) {
    steps != [] && (steps[|steps| - 1].Observe? || (!steps[|steps| - 1].DaemonRestart? && HasSampled(steps[..|steps| - 1])))
  }

  function InSession(steps: seq<Step>): nat { Bytes(steps[SessionStart(steps)..]) }

  function Unseen(steps: seq<Step>): nat { Bytes(steps[LastSample(steps)..]) }

  lemma BytesSnoc(init: seq<Step>, s: Step, from: nat)
    requires from <= |init|
    ensures Bytes((init + [s])[from..]) == Bytes(init[from..]) + if s.Transfer? then s.n else 0
  {
    assert (init + [s])[from..] == init[from..] + [s];
    assert (init[from..] + [s])[..|init| - from] == init[from..];
  }

  lemma {:induction false} TotalIs(steps: seq<Step>)
    ensures Run(steps).total == Bytes(steps)
  {
    if steps != [] { TotalIs(steps[..|steps| - 1]); }
  }

  lemma {:induction false} RawIs(steps: seq<Step>)
    ensures Run(steps).raw == InSession(steps)
  {
    if steps != [] {
      var init, s := steps[..|steps| - 1], steps[|steps| - 1];
      RawIs(init);
      BytesSnoc(init, s, SessionStart(init));
      assert steps == init + [s] && steps[|steps|..] == [];
    }
  }

  lemma {:induction false} UnsampledIs(steps: seq<Step>)
    ensures Run(steps).unsampled == Unseen(steps)
  {
    if steps != [] {
      var init, s := steps[..|steps| - 1], steps[|steps| - 1];
      UnsampledIs(init);
      BytesSnoc(init, s, LastSample(init));
      assert steps == init + [s] && steps[|steps|..] == [];
    }
  }

  lemma {:induction false} RestartedIs(steps: seq<Step>)
    ensures Run(steps).restarted <==> LastSample(steps) < SessionStart(steps)
  {
    if steps != [] { RestartedIs(steps[..|steps| - 1]); }
  }

  lemma {:induction false} PrevIs(steps: seq<Step>)
    ensures Run(steps).m.prev == if HasSampled(steps) then Some(InSession(steps[..LastSample(steps)])) else None
  {
    if steps != [] {
      var init, s := steps[..|steps| - 1], steps[|steps| - 1];
      PrevIs(init);
      assert steps[..LastSample(init)] == init[..LastSample(init)];
      if s.Observe? {
        RawIs(init);
        RawIs(steps);
        assert steps[..|steps|] == steps;
      }
    }
  }

  /** What a run has done, read off its steps. */
  lemma RunIs(steps: seq<Step>)
    ensures var h := Run(steps);
      && h.raw == InSession(steps) && h.unsampled == Unseen(steps) && h.total == Bytes(steps)
      && (h.restarted <==> LastSample(steps) < SessionStart(steps))
      && h.m.prev == if HasSampled(steps) then Some(InSession(steps[..LastSample(steps)])) else None
  {
    TotalIs(steps); RawIs(steps); UnsampledIs(steps); RestartedIs(steps); PrevIs(steps);
  }

  /** Read off the steps: a sample taken now adds every byte transferred since the last one. The
      first sample of a process does if nothing was transferred before this session or since the
      last sample; a later one does in an unbroken session; and in a new session if the bytes since
      the last sample are all of this session and fewer than it showed then, or it showed none. */
  predicate KeepsAll(steps: seq<Step>) {
    if !HasSampled(steps) then Bytes(steps[..SessionStart(steps)]) == 0 || Unseen(steps) == 0
    else if SessionStart(steps) < LastSample(steps) then true
    else
      var shown := InSession(steps[..LastSample(steps)]);
      InSession(steps) == Unseen(steps) && (InSession(steps) < shown || shown == 0)
  }

  lemma {:induction false} BytesSplit(steps: seq<Step>, k: nat)
    requires k <= |steps|
    ensures Bytes(steps) == Bytes(steps[..k]) + Bytes(steps[k..])
  {
    if k == |steps| {
      assert steps[..k] == steps && steps[k..] == [];
    } else {
      var init := steps[..|steps| - 1];
      BytesSplit(init, k);
      assert init[..k] == steps[..k] && steps[k..][..|steps| - 1 - k] == init[k..];
    }
  }

  /** Nothing was lost so far. */
  ghost predicate Lossless(steps: seq<Step>) {
    var h := Run(steps); h.m.lifetime + h.unsampled == h.total
  }

  lemma SampleLosesExactly(steps: seq<Step>)
    ensures Lossless(steps + [Observe]) <==> Lossless(steps) && KeepsAll(steps)
  {
    var h := Run(steps);
    EveryRunIsSound(steps);
    RunIs(steps);
    RunStep(steps, Observe, steps + [Observe]);
    BytesSplit(steps, SessionStart(steps));
    if h.m.prev.Some? { GrowthExactly(h); }
    StartsDiffer(steps);
  }

  lemma {:induction false} StartsDiffer(steps: seq<Step>)
    ensures SessionStart(steps) == LastSample(steps) ==> SessionStart(steps) == 0
    ensures HasSampled(steps) ==> LastSample(steps) > 0
  {
    if steps != [] { StartsDiffer(steps[..|steps| - 1]); }
  }

  lemma OtherStepsLoseNothing(steps: seq<Step>, s: Step)
    requires s != Observe
    ensures Lossless(steps + [s]) <==> Lossless(steps)
  {
    RunStep(steps, s, steps + [s]);
  }

  /** Over every run the lifetime total, with what is not sampled yet, is the true traffic exactly
      if every sample kept all. A loss is never made good. */
  lemma {:induction false} NothingLostExactly(steps: seq<Step>)
    ensures Lossless(steps) <==> forall i {:trigger steps[i]} :: 0 <= i < |steps| && steps[i] == Observe ==> KeepsAll(steps[..i])
  {
    if steps != [] {
      var n := |steps| - 1;
      var init := steps[..n];
      NothingLostExactly(init);
      assert steps == init + [steps[n]];
      assert forall i :: 0 <= i < n ==> steps[i] == init[i] && steps[..i] == init[..i];
      if steps[n] == Observe { SampleLosesExactly(init); } else { OtherStepsLoseNothing(init, steps[n]); }
    }
  }

  /** The first sample of a daemon process loses nothing exactly if nothing was transferred before
      the current session, or nothing since the last sample. */
  lemma FirstSampleExactly(steps: seq<Step>)
    requires Lossless(steps) && !HasSampled(steps)
    ensures Run(steps + [Observe]).m.lifetime == Bytes(steps) <==>
      Bytes(steps[..SessionStart(steps)]) == 0 || Unseen(steps) == 0
  {
    RunIs(steps);
    RunStep(steps, Observe, steps + [Observe]);
    SampleLosesExactly(steps);
  }

  // ---- quota and expiry ----

  /** A client row, as far as accounting and suspension go; a zero limit means none, and None an
      unset expiry. */
  datatype Client = Client(cn: string, suspended: bool, expires: Option<int>, quota: int,
                           lastRx: int, lastTx: int, offRx: int, offTx: int,
                           bwRx: int, bwTx: int, bwTotal: int)

  datatype Reason = Expired | TrafficLimit

  function EffectiveRx(c: Client): int { Effective(c.lastRx, c.offRx) }
  function EffectiveTx(c: Client): int { Effective(c.lastTx, c.offTx) }

  function ExceedsTrafficLimit(rx: int, tx: int, limit: int): bool {
    if limit <= 0 then false
    else (if rx < 0 then 0 else rx) + (if tx < 0 then 0 else tx) >= limit
  }

  function ShouldAutoSuspend(c: Client, now: int): Option<Reason> {
    if c.suspended then None
    else if c.expires.Some? && now > c.expires.value then Some(Expired)
    else if c.quota > 0 && ExceedsTrafficLimit(EffectiveRx(c), EffectiveTx(c), c.quota) then Some(TrafficLimit)
    else None
  }

  /** The client may stay: not past its expiry, and below its quota on the stored counters. */
  ghost predicate InGoodStanding(c: Client, now: int) {
    && (c.expires.Some? ==> now <= c.expires.value)
    && (c.quota > 0 ==> EffectiveRx(c) + EffectiveTx(c) < c.quota)
  }

  lemma SuspendsExactly(c: Client, now: int)
    ensures ShouldAutoSuspend(c, now).None? <==> c.suspended || InGoodStanding(c, now)
  {
  }

  /** ResetClientTraffic on a row. */
  function ResetRow(c: Client): Client { c.(offRx := c.lastRx, offTx := c.lastTx) }

  /** Soft-reset offsets never pass the stored totals. */
  ghost predicate OffsetsFit(c: Client) { 0 <= c.offRx <= c.lastRx && 0 <= c.offTx <= c.lastTx }
}
