/**
 * Sessions over the life of the aircraft (src/flight_application.cpp): processes are launched and die,
 * power fails, and within a process one session follows another. The reset byte on the wire and the
 * durable counter advance together.
 */
module FlightApplications {
  import opened Basics
  import opened Sessions
  import opened LinkModel
  import opened LinkHistory
  import opened SessionProofs
  import opened LinkProofs
  import opened LinkTheorems
  import opened LinkPermissions
  import opened SessionStores
  import opened MavlinkLinks

  /** The objects one process owns; `run_flight` uses the link through `pump`, `publish` and `end_session`. */
  class FlightApplication {
    const store: SessionStore
    const link: MavlinkLink
    var generation: nat

    ghost predicate Valid()
      reads this, store, link, link.pending
    {
      store.View().Valid() && link.Valid()
    }

    constructor (store: SessionStore, link: MavlinkLink)
      requires store.View().Valid() && link.Valid()
      ensures Valid() && this.store == store && this.link == link && generation == 0
    {
      this.store := store;
      this.link := link;
      generation := 0;
    }

    /**
     * Reserve a byte and open the link with it; null where the reservation throws, or the link does for want
     * of a stream or usable settings. The byte is spent either way.
     */
    static method Launch(store: SessionStore, stream: bool, settings: Settings, stop: Stop)
      returns (app: FlightApplication?)
      requires store.View().Valid()
      modifies store
      ensures store.View().Valid() && store.View() == old(Reserve(store.View(), stop)).0
      ensures var reserved := old(Reserve(store.View(), stop)).1;
              if reserved.None? || !stream || !settings.(initialReset := reserved.value).Valid() then app == null
              else app != null && app.Valid() && app.store == store && app.generation == 0
                   && app.link.View() == Opened(settings.(initialReset := reserved.value))
    {
      var reserved := store.ReserveReset(stop);
      if reserved.None? {
        return null;
      }
      var link := MavlinkLink.Create(stream, settings.(initialReset := reserved.value));
      if link == null {
        return null;
      }
      app := new FlightApplication(store, link);
    }

    /** The head of the loop: a durable byte first, then the session that uses it. */
    method BeginSession(stop: Stop) returns (started: bool)
      requires Valid()
      modifies this, store, link, link.session
      ensures Valid()
      ensures started == old(NextSession(store.View(), link.View(), generation, stop)).2
      ensures (store.View(), link.View()) == old(var (d, l, _) := NextSession(store.View(), link.View(), generation, stop); (d, l))
      ensures started ==> generation == old(generation) + 1
    {
      if generation != 0 {
        var reserved := store.ReserveReset(stop);
        if reserved.None? {
          return false;
        }
      }
      generation := generation + 1;
      var result := link.StartSession(generation);
      started := result.Started?;
    }
  }

  /** The value of `BeginSession`: the disk, the link, and whether the process goes on. */
  function NextSession(d: Disk, l: Link, generation: nat, stop: Stop): (Disk, Link, bool)
    requires d.Valid()
  {
    var (disk, reserved) := if generation == 0 then (d, None) else Reserve(d, stop);
    if generation != 0 && reserved.None? then (disk, l, false)
    else
      var (link, result) := StartSession(l, generation + 1);
      (disk, link, result.Started?)
  }

  // ---- the life of the aircraft

  /**
   * The store with its ledger, the link of the running process (if any), the reservation that process
   * was launched with, and the reservation behind every session ever started.
   */
  datatype Flight = Flight(
    ledger: Ledger,
    running: bool,
    link: Link,
    generation: nat,
    launched: nat,
    sessions: seq<nat>)

  datatype Deed =
    | Launch(launchStop: Stop)
    | Begin(beginStop: Stop)
    | Use(action: Action)
    | Exit
    | Blackout(pick: nat, garbage: Content)

  /** The reservation handed out last; 0 before the first. */
  function Latest(l: Ledger): nat {
    if l.handedOut == [] then 0 else l.handedOut[|l.handedOut| - 1]
  }

  ghost predicate AllBelow(s: seq<nat>, limit: nat) {
    forall i :: 0 <= i < |s| ==> s[i] < limit
  }

  ghost predicate Running(settings: Settings, f: Flight) {
    && Inv(f.link) && f.ledger.numbers == [Latest(f.ledger)]
    && 0 < f.launched && f.link.settings == settings.(initialReset := ByteOf(f.launched))
    && Generations(f.link.log) == f.generation
    && (f.generation > 0 ==> f.link.session.generation == Some(f.generation))
    && Latest(f.ledger) == (if f.generation == 0 then f.launched else f.launched + f.generation - 1)
    && (f.generation == 0 ==> AllBelow(f.sessions, f.launched))
  }

  /** Sessions use each reservation at most once, and a running link is in step with the counter. */
  ghost predicate InStep(settings: Settings, f: Flight) {
    match f.running
    case true => settings.Valid() && Accounted(f.ledger, f.sessions) && Running(settings, f)
    case false => settings.Valid() && Accounted(f.ledger, f.sessions)
  }

  ghost predicate Accounted(ledger: Ledger, sessions: seq<nat>) {
    Sound(ledger) && Increasing(sessions) && AllBelow(sessions, Latest(ledger) + 1)
  }

  /** What a deed does; deeds that need a running process do nothing without one. */
  ghost function Act(settings: Settings, f: Flight, deed: Deed): Flight
    requires InStep(settings, f)
  {
    match deed
    case Launch(stop) =>
      var ledger := Happen(f.ledger, Attempt(stop));
      if |ledger.handedOut| == |f.ledger.handedOut| then f.(ledger := ledger, running := false)
      else Flight(ledger, true, Opened(settings.(initialReset := ledger.bytes[|ledger.bytes| - 1])), 0,
                  Latest(ledger), f.sessions)
    case Begin(stop) =>
      if !f.running then f
      else
        var ledger := if f.generation == 0 then f.ledger else Happen(f.ledger, Attempt(stop));
        var (_, link, started) := NextSession(f.ledger.disk, f.link, f.generation, stop);
        if !started then f.(ledger := ledger, running := false)
        else f.(ledger := ledger, link := link, generation := f.generation + 1,
                sessions := f.sessions + [Latest(ledger)])
    case Use(action) =>
      if !f.running || action.Start? then f else f.(link := Do(f.link, action).0)
    case Exit => f.(running := false)
    case Blackout(pick, garbage) =>
      f.(ledger := Happen(f.ledger, PowerLoss(pick, garbage)), running := false)
  }

  // ---- every deed keeps step

  /** An attempt hands out nothing, or a reservation newer than all before that the disk then holds. */
  lemma AttemptReserves(l: Ledger, stop: Stop)
    requires Sound(l)
    ensures var r := Happen(l, Attempt(stop));
            && Sound(r) && Latest(l) <= Latest(r)
            && (|r.handedOut| == |l.handedOut| ==> r.handedOut == l.handedOut)
            && (|r.handedOut| != |l.handedOut| ==>
                  && r.numbers == [Latest(r)] && Latest(l) < Latest(r)
                  && r.bytes[|r.bytes| - 1] == ByteOf(Latest(r)))
  {
    HappenKeepsSound(l, Attempt(stop));
    var r := Happen(l, Attempt(stop));
    if |r.handedOut| != |l.handedOut| && l.handedOut != [] {
      assert r.handedOut[|l.handedOut| - 1] < r.handedOut[|l.handedOut|];
    }
  }

  lemma AttemptKeepsAccount(l: Ledger, stop: Stop, sessions: seq<nat>)
    requires Accounted(l, sessions)
    ensures Accounted(Happen(l, Attempt(stop)), sessions)
    ensures |Happen(l, Attempt(stop)).handedOut| != |l.handedOut| ==>
              AllBelow(sessions, Latest(Happen(l, Attempt(stop))))
  {
    AttemptReserves(l, stop);
  }

  lemma NewSessionIsAccounted(l: Ledger, sessions: seq<nat>)
    requires Sound(l) && Increasing(sessions) && AllBelow(sessions, Latest(l))
    ensures Accounted(l, sessions + [Latest(l)])
  {
  }

  lemma LaunchKeepsStep(settings: Settings, f: Flight, stop: Stop)
    requires InStep(settings, f)
    ensures InStep(settings, Act(settings, f, Launch(stop)))
  {
    AttemptReserves(f.ledger, stop);
    AttemptKeepsAccount(f.ledger, stop, f.sessions);
    OpenedHolds(settings.(initialReset := ByteOf(Latest(Happen(f.ledger, Attempt(stop))))));
  }

  /** The link's own part of a session start. */
  lemma StartCountsOne(l: Link, generation: nat)
    requires Inv(l) && StartSession(l, generation).1.Started?
    ensures var r := StartSession(l, generation).0;
            && Inv(r) && r.settings == l.settings && Generations(r.log) == Generations(l.log) + 1
            && r.session.generation == Some(generation)
  {
    StartHolds(l, generation);
    Snoc(l.log, Began(generation));
  }

  /** A running process finds its own last reservation on disk, so the next one follows it directly. */
  lemma NextReservationFollows(l: Ledger, stop: Stop)
    requires Sound(l) && l.handedOut != [] && l.numbers == [Latest(l)]
    ensures var r := Happen(l, Attempt(stop));
            && (Reserve(l.disk, stop).1.Some? <==> |r.handedOut| != |l.handedOut|)
            && (Reserve(l.disk, stop).1.Some? ==> Latest(r) == Latest(l) + 1)
  {
    assert Holds(l.disk.Current(), l.numbers[0]);
    ReserveIsNext(l.disk, stop, l.numbers[0]);
  }

  lemma FirstBeginKeepsStep(settings: Settings, f: Flight, stop: Stop)
    requires InStep(settings, f) && f.running && f.generation == 0
    ensures InStep(settings, Act(settings, f, Begin(stop)))
  {
    NewSessionIsAccounted(f.ledger, f.sessions);
    if StartSession(f.link, 1).1.Started? {
      StartCountsOne(f.link, 1);
    }
  }

  lemma NextBeginKeepsStep(settings: Settings, f: Flight, stop: Stop)
    requires InStep(settings, f) && f.running && f.generation > 0
    ensures InStep(settings, Act(settings, f, Begin(stop)))
  {
    hide Inv, Happen, StartSession, Reserve, Generations, Holds;
    assert f.ledger.handedOut != [];
    AttemptKeepsAccount(f.ledger, stop, f.sessions);
    if NextSession(f.ledger.disk, f.link, f.generation, stop).2 {
      NextSessionKeepsStep(settings, f, stop, Happen(f.ledger, Attempt(stop)), StartSession(f.link, f.generation + 1).0);
    }
  }

  /** The session did start: it has the next reservation, and the link its byte. */
  lemma NextSessionKeepsStep(settings: Settings, f: Flight, stop: Stop, ledger: Ledger, link: Link)
    requires InStep(settings, f) && f.running && f.generation > 0 && f.ledger.handedOut != []
    requires ledger == Happen(f.ledger, Attempt(stop)) && Reserve(f.ledger.disk, stop).1.Some?
    requires StartSession(f.link, f.generation + 1).1.Started? && link == StartSession(f.link, f.generation + 1).0
    ensures InStep(settings, f.(ledger := ledger, link := link, generation := f.generation + 1,
                                sessions := f.sessions + [Latest(ledger)]))
  {
    hide Inv, Happen, StartSession, Reserve, Generations, Holds;
    NextReservationFollows(f.ledger, stop);
    AttemptReserves(f.ledger, stop);
    AttemptKeepsAccount(f.ledger, stop, f.sessions);
    NewSessionIsAccounted(ledger, f.sessions);
    StartCountsOne(f.link, f.generation + 1);
  }

  lemma UseKeepsStep(settings: Settings, f: Flight, action: Action)
    requires InStep(settings, f) && f.running && !action.Start?
    ensures InStep(settings, Act(settings, f, Use(action)))
  {
    UsingGoesOn(f.link, action);
  }

  lemma ActKeepsStep(settings: Settings, f: Flight, deed: Deed)
    requires InStep(settings, f)
    ensures InStep(settings, Act(settings, f, deed))
  {
    match deed {
      case Launch(stop) => LaunchKeepsStep(settings, f, stop);
      case Begin(stop) =>
        if f.running {
          if f.generation == 0 {
            FirstBeginKeepsStep(settings, f, stop);
          } else {
            NextBeginKeepsStep(settings, f, stop);
          }
        }
      case Use(action) =>
        if f.running && !action.Start? {
          UseKeepsStep(settings, f, action);
        }
      case Exit =>
      case Blackout(pick, garbage) => HappenKeepsSound(f.ledger, PowerLoss(pick, garbage));
    }
  }

  /** A process comes up exactly if its reservation was made, with the byte of that reservation. */
  lemma LaunchesExactlyWhenReserved(settings: Settings, f: Flight, stop: Stop)
    requires InStep(settings, f)
    ensures var r := Act(settings, f, Launch(stop));
            && (r.running <==> stop.Nowhere?)
            && (r.running ==>
                  && r.link == Opened(settings.(initialReset := ByteOf(Latest(r.ledger))))
                  && r.launched == Latest(r.ledger) == f.ledger.numbers[|f.ledger.numbers| - 1] + 1)
  {
    var last := f.ledger.numbers[|f.ledger.numbers| - 1];
    assert Holds(f.ledger.disk.Current(), last);
    ReserveIsNext(f.ledger.disk, stop, last);
    AttemptReserves(f.ledger, stop);
  }

  /**
   * A running process begins a session exactly if it needs no new byte or could reserve one, its link is not in
   * the middle of a packet and has not failed, and every alignment command was accepted. The session then has
   * the latest reservation's byte; otherwise the process ends.
   */
  lemma BeginsExactlyWhenResolved(settings: Settings, f: Flight, stop: Stop)
    requires InStep(settings, f) && f.running
    ensures var r := Act(settings, f, Begin(stop));
            && (r.running <==>
                  && (f.generation == 0 || stop.Nowhere?)
                  && f.link.offset == 0 && !f.link.session.state.Failed? && Unresolved(f.link.log) == 0)
            && (if r.running then
                  && r.sessions == f.sessions + [Latest(r.ledger)] && r.generation == f.generation + 1
                  && r.link.started && r.link.open && r.link.session.generation == Some(r.generation)
                  && r.link.session.resetCounter == ByteOf(Latest(r.ledger))
                else r.sessions == f.sessions)
  {
    hide Inv, Happen, StartSession, Reserve, Unresolved, Holds, Sound;
    ActKeepsStep(settings, f, Begin(stop));
    StartsExactly(f.link, f.generation + 1);
    GenerationKnown(f.link);
    ReadyToReserve(f.ledger, stop);
    var r := Act(settings, f, Begin(stop));
    if r.running {
      ByteInStep(settings, r);
    }
  }

  lemma GenerationKnown(l: Link)
    requires Inv(l)
    ensures LastGeneration(l.log) == l.session.generation && (Generations(l.log) == 0 <==> LastGeneration(l.log).None?)
  {
    assert Agrees(l.settings, l.session, l.log);
  }

  lemma ReadyToReserve(l: Ledger, stop: Stop)
    requires Sound(l)
    ensures Reserve(l.disk, stop).1.Some? <==> stop.Nowhere?
  {
    var last := l.numbers[|l.numbers| - 1];
    assert Holds(l.disk.Current(), last);
    ReserveIsNext(l.disk, stop, last);
  }

  lemma ByteInStep(settings: Settings, f: Flight)
    requires InStep(settings, f) && f.running && f.generation > 0
    ensures f.link.session.resetCounter == ByteOf(Latest(f.ledger))
  {
    assert Agrees(f.link.settings, f.link.session, f.link.log);
    ByteAdvances(f.launched, f.generation - 1);
  }

  /** The aircraft after a whole life that started from an intact disk. */
  ghost function Live(settings: Settings, start: Ledger, deeds: seq<Deed>): (f: Flight)
    requires settings.Valid() && Sound(start)
    ensures InStep(settings, f)
  {
    if deeds == [] then Flight(start, false, Opened(settings), 0, 0, [])
    else
      var before := Live(settings, start, deeds[..|deeds| - 1]);
      ActKeepsStep(settings, before, deeds[|deeds| - 1]);
      Act(settings, before, deeds[|deeds| - 1])
  }

  /**
   * Every session ever started has a reservation of its own, larger than that of any session before it
   * and never above what the disk is sure to remember, across any crashes and power losses.
   */
  lemma SessionsNeverShareAReservation(settings: Settings, start: Ledger, deeds: seq<Deed>, i: nat, j: nat)
    requires settings.Valid() && Sound(start)
    requires i < j < |Live(settings, start, deeds).sessions|
    ensures var f := Live(settings, start, deeds);
            && f.sessions[i] < f.sessions[j] <= f.ledger.numbers[0]
            && Holds(f.ledger.disk.names[0], f.ledger.numbers[0])
  {
    var f := Live(settings, start, deeds);
    assert f.ledger.handedOut[|f.ledger.handedOut| - 1] <= f.ledger.numbers[0];
  }

  lemma ByteAdvances(launched: nat, more: nat)
    requires 0 < launched
    ensures (ByteOf(launched) + more) % 256 == ByteOf(launched + more)
  {
    assert launched + 255 == 256 * ((launched + 255) / 256) + (launched + 255) % 256;
  }

  lemma {:induction false} GenerationsGrow(log: seq<Event>, n: nat)
    requires n <= |log|
    ensures Generations(log[..n]) <= Generations(log)
    ensures Generations(log[..n]) == 0 ==> LastGeneration(log[..n]).None?
    decreases |log| - n
  {
    if n < |log| {
      assert log[..n + 1][..n] == log[..n];
      GenerationsGrow(log, n + 1);
    } else {
      assert log[..n] == log;
    }
    NoGeneration(log[..n]);
  }

  lemma {:induction false} NoGeneration(log: seq<Event>)
    ensures Generations(log) == 0 ==> LastGeneration(log).None?
  {
    if log == [] {
    } else {
      NoGeneration(log[..|log| - 1]);
    }
  }

  lemma LawfulMeasurement(s: Settings, log: seq<Event>, j: nat)
    requires Lawful(s, log) && j < |log| && log[j].Wrote? && log[j].kind.MeasurementPending?
    ensures LastGeneration(log[..j]).Some? && LastQueued(log[..j]).Some?
    ensures MeasurementCargo(s, log[j].cargo, LastQueued(log[..j]).value, ResetByte(s, log[..j]))
  {
    assert EventRule(s, log[..j], log[j]);
  }

  /**
   * The reset byte on every measurement written by the running process of an aircraft, after any life,
   * is that of the reservation its session was started with, which the disk is sure to remember; for the
   * current session that is the latest reservation of all.
   */
  lemma MeasurementsCarryTheirReservation(settings: Settings, start: Ledger, deeds: seq<Deed>, j: nat)
    requires settings.Valid() && Sound(start)
    requires var f := Live(settings, start, deeds);
             f.running && j < |f.link.log| && f.link.log[j].Wrote? && f.link.log[j].kind.MeasurementPending?
    ensures var f := Live(settings, start, deeds);
            var reservation := f.launched + Generations(f.link.log[..j]) - 1;
            && f.launched <= reservation <= f.ledger.numbers[0] && LastQueued(f.link.log[..j]).Some?
            && MeasurementCargo(settings, f.link.log[j].cargo, LastQueued(f.link.log[..j]).value, ByteOf(reservation))
            && (SameGeneration(f.link.log, j) ==> reservation == f.ledger.numbers[0])
  {
    hide Live;
    MeasurementCarriesItsReservation(settings, Live(settings, start, deeds), j);
  }

  lemma MeasurementCarriesItsReservation(settings: Settings, f: Flight, j: nat)
    requires InStep(settings, f) && f.running && j < |f.link.log|
    requires f.link.log[j].Wrote? && f.link.log[j].kind.MeasurementPending?
    ensures var reservation := f.launched + Generations(f.link.log[..j]) - 1;
            && f.launched <= reservation <= f.ledger.numbers[0] && LastQueued(f.link.log[..j]).Some?
            && MeasurementCargo(settings, f.link.log[j].cargo, LastQueued(f.link.log[..j]).value, ByteOf(reservation))
            && (SameGeneration(f.link.log, j) ==> reservation == f.ledger.numbers[0])
  {
    var log := f.link.log;
    LawfulMeasurement(f.link.settings, log, j);
    GenerationsGrow(log, j);
    NoGeneration(log[..j]);
    ByteAdvances(f.launched, Generations(log[..j]) - 1);
    if SameGeneration(log, j) {
      SameGenerationCounts(log, j);
    }
  }

  lemma {:induction false} SameGenerationCounts(log: seq<Event>, j: nat)
    requires j <= |log| && SameGeneration(log, j)
    ensures Generations(log[..j]) == Generations(log)
    decreases |log| - j
  {
    if j < |log| {
      assert log[..j + 1][..j] == log[..j];
      SameGenerationCounts(log, j + 1);
    } else {
      assert log[..j] == log;
    }
  }
}
