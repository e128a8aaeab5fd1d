/**
 * The IMU thread's pairing (src/openvins_runner/sensor_runner.cpp): two sensor streams arrive in
 * arbitrary pieces, are filtered and shifted, and leave as rows on the gyro's timestamps. The
 * calibration tool (tools/calibration/kalibr_imu_csv.py) pairs whole recordings at once; its
 * interpolation is the specification.
 */
module ImuPairings {
  import opened Basics
  import opened Estimates
  import opened ImuLowPasses

  datatype Row = Row(t: Time, w: Vec3, a: Vec3)

  predicate Increasing(s: seq<Sample>) {
    forall i, j :: 0 <= i < j < |s| ==> s[i].t < s[j].t
  }

  function Last(s: seq<Sample>): Sample
    requires s != []
  {
    s[|s| - 1]
  }

  // ---- the specification: whole streams at once

  /** How many samples are at or before `t`. */
  function AtOrBefore(s: seq<Sample>, t: Time): (n: nat)
    ensures n <= |s| && (n > 0 ==> s[n - 1].t <= t)
  {
    if s == [] then 0 else if Last(s).t <= t then |s| else AtOrBefore(s[..|s| - 1], t)
  }

  function Lerp(p: Sample, q: Sample, t: Time): Vec3
    requires p.t < q.t
  {
    Plus(p.v, Times((t - p.t) as real / (q.t - p.t) as real, Minus(q.v, p.v)))
  }

  /** Piecewise linear interpolation, held constant after the last sample. */
  function Interp(s: seq<Sample>, t: Time): Vec3
    requires Increasing(s) && s != [] && s[0].t <= t
  {
    Locate(s, t);
    var j := AtOrBefore(s, t) - 1;
    if j == |s| - 1 then s[j].v else Lerp(s[j], s[j + 1], t)
  }

  predicate Covered(s: seq<Sample>, t: Time) {
    s != [] && s[0].t <= t <= Last(s).t
  }

  function Rows(accels: seq<Sample>, gyros: seq<Sample>): seq<Row>
    requires Increasing(accels)
  {
    if gyros == [] then []
    else
      var g := Last(gyros);
      var rest := Rows(accels, gyros[..|gyros| - 1]);
      if Covered(accels, g.t) then rest + [Row(g.t, g.v, Interp(accels, g.t))] else rest
  }

  /** `AtOrBefore` counts exactly: everything before it is at or before `t`, everything after is later. */
  lemma {:induction false} Locate(s: seq<Sample>, t: Time)
    requires Increasing(s)
    ensures forall i :: 0 <= i < AtOrBefore(s, t) ==> s[i].t <= t
    ensures forall i :: AtOrBefore(s, t) <= i < |s| ==> t < s[i].t
  {
    if s == [] || Last(s).t <= t {
    } else {
      Locate(s[..|s| - 1], t);
    }
  }

  lemma Located(s: seq<Sample>, t: Time, j: nat)
    requires Increasing(s) && j < |s| && s[j].t <= t && (j + 1 < |s| ==> t < s[j + 1].t)
    ensures AtOrBefore(s, t) == j + 1
  {
    Locate(s, t);
  }

  lemma Ends(p: Sample, q: Sample)
    requires p.t < q.t
    ensures Lerp(p, q, p.t) == p.v && Lerp(p, q, q.t) == q.v
  {
    var d := (q.t - p.t) as real;
    assert 0.0 / d == 0.0 && d / d == 1.0;
  }

  /** On every closed segment the interpolation is the straight line through its two samples. */
  lemma InterpolationIsLinear(s: seq<Sample>, t: Time, i: nat)
    requires Increasing(s) && i + 1 < |s| && s[i].t <= t <= s[i + 1].t
    ensures s[0].t <= t && Interp(s, t) == Lerp(s[i], s[i + 1], t)
  {
    assert s[0].t <= s[i].t;
    if t < s[i + 1].t {
      Located(s, t, i);
    } else {
      Located(s, t, i + 1);
      Ends(s[i], s[i + 1]);
      if i + 2 < |s| {
        Ends(s[i + 1], s[i + 2]);
      }
    }
  }

  /** Dropping samples at the front changes nothing from the first remaining one on. */
  lemma InterpOfSuffix(s: seq<Sample>, n: nat, t: Time)
    requires Increasing(s) && n < |s| && s[n].t <= t
    ensures Increasing(s[n..]) && s[0].t <= t && Interp(s[n..], t) == Interp(s, t)
  {
    hide Lerp;
    assert s[0].t <= s[n].t;
    Locate(s, t);
    var j := AtOrBefore(s, t) - 1;
    assert n <= j;
    Located(s[n..], t, j - n);
  }

  /** Later samples change nothing up to the last one known. */
  lemma InterpOfPrefix(s: seq<Sample>, more: seq<Sample>, t: Time)
    requires Increasing(s + more) && Covered(s, t)
    ensures Increasing(s) && Interp(s + more, t) == Interp(s, t)
  {
    var all := s + more;
    assert forall i :: 0 <= i < |s| ==> s[i] == all[i];
    Locate(s, t);
    var j := AtOrBefore(s, t) - 1;
    if j + 1 < |s| {
      Located(all, t, j);
    } else {
      if more != [] {
        Ends(s[j], all[j + 1]);
      }
      Located(all, t, j);
    }
  }

  lemma {:induction false} RowsAreStable(accels: seq<Sample>, more: seq<Sample>, gyros: seq<Sample>)
    requires Increasing(accels + more) && Increasing(gyros)
    requires gyros != [] ==> accels != [] && Last(gyros).t <= Last(accels).t
    ensures Increasing(accels) && Rows(accels + more, gyros) == Rows(accels, gyros)
  {
    assert forall i :: 0 <= i < |accels| ==> accels[i] == (accels + more)[i];
    if gyros == [] {
    } else {
      RowsAreStable(accels, more, gyros[..|gyros| - 1]);
      var t := Last(gyros).t;
      assert Covered(accels + more, t) <==> Covered(accels, t) by {
        if more != [] {
          assert Last(accels).t < Last(accels + more).t;
        } else {
          assert accels + more == accels;
        }
      }
      if Covered(accels, t) {
        InterpOfPrefix(accels, more, t);
      }
    }
  }

  lemma {:induction false} RowsOfUncovered(accels: seq<Sample>, gyros: seq<Sample>, n: nat)
    requires Increasing(accels) && n <= |gyros|
    requires forall i :: n <= i < |gyros| ==> !Covered(accels, gyros[i].t)
    ensures Rows(accels, gyros) == Rows(accels, gyros[..n])
    decreases |gyros|
  {
    if n < |gyros| {
      var rest := gyros[..|gyros| - 1];
      RowsOfUncovered(accels, rest, n);
      assert rest[..n] == gyros[..n];
    } else {
      assert gyros[..n] == gyros;
    }
  }

  lemma RowsSnoc(accels: seq<Sample>, gyros: seq<Sample>, g: Sample)
    requires Increasing(accels)
    ensures Rows(accels, gyros + [g])
            == if Covered(accels, g.t) then Rows(accels, gyros) + [Row(g.t, g.v, Interp(accels, g.t))]
               else Rows(accels, gyros)
  {
    assert (gyros + [g])[..|gyros|] == gyros;
  }

  // ---- the streaming form

  /** Drop accelerations that a gyro sample at `t` no longer needs. */
  function Advance(aq: seq<Sample>, t: Time): seq<Sample> {
    if |aq| >= 2 && aq[1].t <= t then Advance(aq[1..], t) else aq
  }

  /** The acceleration the loop computes from the head of its queue. */
  function AtHead(aq: seq<Sample>, t: Time): Vec3
    requires aq != []
  {
    if |aq| >= 2 && aq[1].t > aq[0].t then Lerp(aq[0], aq[1], t) else aq[0].v
  }

  /** The pairing loop: the queues it leaves and the rows it emits. */
  function Drain(aq: seq<Sample>, gq: seq<Sample>): (seq<Sample>, seq<Sample>, seq<Row>)
    decreases |gq|
  {
    if gq == [] || aq == [] || Last(aq).t < gq[0].t then (aq, gq, [])
    else if gq[0].t < aq[0].t then Drain(aq, gq[1..])
    else
      var head := Advance(aq, gq[0].t);
      AdvanceKeepsOne(aq, gq[0].t);
      var (a, g, rows) := Drain(head, gq[1..]);
      (a, g, [Row(gq[0].t, gq[0].v, AtHead(head, gq[0].t))] + rows)
  }

  lemma SliceOfTail(s: seq<Sample>, n: nat)
    requires 0 < n <= |s|
    ensures s[1..][n - 1..] == s[n..]
  {
  }

  lemma {:induction false} AdvanceKeepsOne(aq: seq<Sample>, t: Time)
    requires aq != [] && aq[0].t <= t
    ensures var r := Advance(aq, t);
            && r != [] && |r| <= |aq| && r == aq[|aq| - |r|..] && r[0].t <= t
            && (|r| >= 2 ==> t < r[1].t)
    decreases |aq|
  {
    if |aq| < 2 || t < aq[1].t {
    } else {
      AdvanceKeepsOne(aq[1..], t);
      var r := Advance(aq, t);
      SliceOfTail(aq, |aq| - |r|);
    }
  }

  /** At the head of an advanced queue the loop computes the interpolation over the whole stream. */
  lemma HeadIsInterpolation(accels: seq<Sample>, n: nat, t: Time)
    requires Increasing(accels) && n < |accels| && accels[n].t <= t <= Last(accels).t
    ensures Covered(accels, t)
    ensures var head := Advance(accels[n..], t); head != [] && AtHead(head, t) == Interp(accels, t)
  {
    hide Lerp;
    var aq := accels[n..];
    AdvanceKeepsOne(aq, t);
    var head := Advance(aq, t);
    var m := |accels| - |head|;
    assert head == accels[m..];
    InterpOfSuffix(accels, m, t);
    Located(head, t, 0);
  }

  /** Between rounds: what is queued is what is not yet decided, and the rows so far are right. */
  ghost predicate Paired(accels: seq<Sample>, gyros: seq<Sample>, aq: seq<Sample>, gq: seq<Sample>, rows: seq<Row>) {
    && Increasing(accels) && Increasing(gyros)
    && |aq| <= |accels| && aq == accels[|accels| - |aq|..] && (accels != [] ==> aq != [])
    && |gq| <= |gyros| && gq == gyros[|gyros| - |gq|..]
    && rows == Rows(accels, gyros[..|gyros| - |gq|])
    && (|gq| < |gyros| ==> accels != [] && gyros[|gyros| - |gq| - 1].t <= Last(accels).t)
    && (|aq| < |accels| ==> |gq| < |gyros| && aq[0].t <= gyros[|gyros| - |gq| - 1].t)
  }

  lemma Ordered(s: seq<Sample>, i: nat, j: nat)
    requires Increasing(s) && i <= j < |s|
    ensures s[i].t <= s[j].t && (i < j ==> s[i].t < s[j].t)
  {
  }

  /** A gyro sample from before the first acceleration leaves no row. */
  lemma GyroIsEarly(accels: seq<Sample>, gyros: seq<Sample>, aq: seq<Sample>, gq: seq<Sample>, rows: seq<Row>)
    requires Paired(accels, gyros, aq, gq, rows)
    requires gq != [] && aq != [] && gq[0].t < aq[0].t
    ensures Paired(accels, gyros, aq, gq[1..], rows)
  {
    hide Rows, Increasing;
    var k, n := |gyros| - |gq|, |accels| - |aq|;
    if n > 0 {
      Ordered(gyros, k - 1, k);
    }
    Ordered(accels, 0, |accels| - 1);
    NextGyro(accels, gyros, k);
  }

  lemma NextGyro(accels: seq<Sample>, gyros: seq<Sample>, k: nat)
    requires Increasing(accels) && k < |gyros|
    ensures Rows(accels, gyros[..k + 1])
            == if Covered(accels, gyros[k].t)
               then Rows(accels, gyros[..k]) + [Row(gyros[k].t, gyros[k].v, Interp(accels, gyros[k].t))]
               else Rows(accels, gyros[..k])
  {
    assert gyros[..k + 1] == gyros[..k] + [gyros[k]];
    RowsSnoc(accels, gyros[..k], gyros[k]);
  }

  /** Any other gets the row the batch gives it. */
  lemma GyroIsPaired(accels: seq<Sample>, gyros: seq<Sample>, aq: seq<Sample>, gq: seq<Sample>, rows: seq<Row>)
    requires Paired(accels, gyros, aq, gq, rows)
    requires gq != [] && aq != [] && aq[0].t <= gq[0].t <= Last(aq).t
    ensures var head := Advance(aq, gq[0].t);
            && head != []
            && Paired(accels, gyros, head, gq[1..], rows + [Row(gq[0].t, gq[0].v, AtHead(head, gq[0].t))])
  {
    hide Rows, Increasing, AtHead, Advance;
    var k, n := |gyros| - |gq|, |accels| - |aq|;
    NextGyro(accels, gyros, k);
    AdvanceKeepsOne(aq, gq[0].t);
    HeadIsInterpolation(accels, n, gq[0].t);
  }

  lemma {:induction false} DrainKeepsPaired(accels: seq<Sample>, gyros: seq<Sample>, aq: seq<Sample>, gq: seq<Sample>, rows: seq<Row>)
    requires Paired(accels, gyros, aq, gq, rows)
    ensures var (a, g, more) := Drain(aq, gq);
            && Paired(accels, gyros, a, g, rows + more)
            && (g == [] || a == [] || Last(a).t < g[0].t)
    decreases |gq|
  {
    hide Paired, AtHead, Rows;
    if gq == [] || aq == [] || Last(aq).t < gq[0].t {
      assert rows + [] == rows;
    } else {
      if gq[0].t < aq[0].t {
        GyroIsEarly(accels, gyros, aq, gq, rows);
        DrainKeepsPaired(accels, gyros, aq, gq[1..], rows);
      } else {
        var head := Advance(aq, gq[0].t);
        GyroIsPaired(accels, gyros, aq, gq, rows);
        var row := Row(gq[0].t, gq[0].v, AtHead(head, gq[0].t));
        DrainKeepsPaired(accels, gyros, head, gq[1..], rows + [row]);
        var (a, g, more) := Drain(head, gq[1..]);
        assert (rows + [row]) + more == rows + ([row] + more);
      }
    }
  }

  /** Once the loop stops, every gyro sample still queued is outside the accelerations seen so far. */
  lemma DrainedIsBatch(accels: seq<Sample>, gyros: seq<Sample>, aq: seq<Sample>, gq: seq<Sample>, rows: seq<Row>)
    requires Paired(accels, gyros, aq, gq, rows)
    requires gq == [] || aq == [] || Last(aq).t < gq[0].t
    ensures rows == Rows(accels, gyros)
  {
    var k := |gyros| - |gq|;
    forall i | k <= i < |gyros|
      ensures !Covered(accels, gyros[i].t)
    {
      assert gyros[k].t <= gyros[i].t;
    }
    RowsOfUncovered(accels, gyros, k);
  }

  /** New samples only extend the queues. */
  lemma ArrivalKeepsPaired(accels: seq<Sample>, gyros: seq<Sample>, aq: seq<Sample>, gq: seq<Sample>, rows: seq<Row>,
                           a: seq<Sample>, g: seq<Sample>)
    requires Paired(accels, gyros, aq, gq, rows) && Increasing(accels + a) && Increasing(gyros + g)
    ensures Paired(accels + a, gyros + g, aq + a, gq + g, rows)
  {
    hide Rows, Increasing;
    var k := |gyros| - |gq|;
    Slice(gyros, k);
    RowsAreStable(accels, a, gyros[..k]);
    assert (gyros + g)[..k] == gyros[..k];
    if accels != [] {
      Ordered(accels + a, |accels| - 1, |accels + a| - 1);
    }
  }

  lemma Slice(s: seq<Sample>, n: nat)
    requires Increasing(s) && n <= |s|
    ensures Increasing(s[..n])
  {
  }

  // ---- the thread

  /** One sensor: its filter, the last timestamp accepted, and the samples waiting to be paired. */
  datatype Lane = Lane(filter: FilterState, last: Time, queue: seq<Sample>)

  /** A raw sample and the clock when it is taken. */
  datatype Reading = Reading(sample: Sample, now: Time)

  const MAX_UNPAIRED := 1024

  const MAX_LEAD: Time := 10_000_000

  /** Take one reading; None is where the thread stops the process. */
  function Accept(f: LowPass, l: Lane, r: Reading): Option<Lane> {
    var t := r.sample.t;
    if t <= l.last || t > r.now + MAX_LEAD then None
    else
      var (filter, v) := Step(f, l.filter, t, r.sample.v);
      if |l.queue| >= MAX_UNPAIRED then None
      else if l.queue != [] && t - f.delay <= Last(l.queue).t then None
      else Some(Lane(filter, t, l.queue + [Sample(t - f.delay, v)]))
  }

  function AcceptAll(f: LowPass, l: Lane, rs: seq<Reading>): Option<Lane> {
    if rs == [] then Some(l)
    else
      match AcceptAll(f, l, rs[..|rs| - 1])
      case None => None
      case Some(before) => Accept(f, before, rs[|rs| - 1])
  }

  datatype Pairing = Pairing(accel: Lane, gyro: Lane, rows: seq<Row>)

  const IDLE := Pairing(Lane(AT_REST, 0, []), Lane(AT_REST, 0, []), [])

  /** What one round of the loop reads from each device; either may be empty. */
  datatype Arrival = Arrival(accels: seq<Reading>, gyros: seq<Reading>)

  function Round(f: LowPass, p: Pairing, arrival: Arrival): Option<Pairing> {
    match (AcceptAll(f, p.accel, arrival.accels), AcceptAll(f, p.gyro, arrival.gyros))
    case (Some(accel), Some(gyro)) =>
      var (aq, gq, rows) := Drain(accel.queue, gyro.queue);
      Some(Pairing(accel.(queue := aq), gyro.(queue := gq), p.rows + rows))
    case _ => None
  }

  function Pair(f: LowPass, arrivals: seq<Arrival>): Option<Pairing> {
    if arrivals == [] then Some(IDLE)
    else
      match Pair(f, arrivals[..|arrivals| - 1])
      case None => None
      case Some(before) => Round(f, before, arrivals[|arrivals| - 1])
  }

  function Samples(rs: seq<Reading>): seq<Sample> {
    seq(|rs|, i requires 0 <= i < |rs| => rs[i].sample)
  }

  /** A whole stream of raw samples, however it was cut into reads. */
  function Accels(arrivals: seq<Arrival>): seq<Sample> {
    if arrivals == [] then [] else Accels(arrivals[..|arrivals| - 1]) + Samples(arrivals[|arrivals| - 1].accels)
  }

  function Gyros(arrivals: seq<Arrival>): seq<Sample> {
    if arrivals == [] then [] else Gyros(arrivals[..|arrivals| - 1]) + Samples(arrivals[|arrivals| - 1].gyros)
  }

  /** A stream filtered and shifted by the filter's delay. */
  function Conditioned(f: LowPass, raw: seq<Sample>): seq<Sample> {
    var ys := Run(f, AT_REST, raw).1;
    seq(|raw|, i requires 0 <= i < |raw| => Sample(raw[i].t - f.delay, ys[i]))
  }

  lemma ConditionedSnoc(f: LowPass, raw: seq<Sample>, s: Sample)
    ensures Conditioned(f, raw + [s])
            == Conditioned(f, raw) + [Sample(s.t - f.delay, Step(f, Run(f, AT_REST, raw).0, s.t, s.v).1)]
    ensures Run(f, AT_REST, raw + [s]).0 == Step(f, Run(f, AT_REST, raw).0, s.t, s.v).0
  {
    hide Step;
    assert (raw + [s])[..|raw|] == raw;
  }

  lemma ConditionedIncreases(f: LowPass, raw: seq<Sample>)
    requires Increasing(raw)
    ensures Increasing(Conditioned(f, raw))
  {
  }

  /** A lane has taken exactly the stream `raw`, and its queue is the end of the conditioned stream. */
  ghost predicate Took(f: LowPass, l: Lane, raw: seq<Sample>) {
    var done := Conditioned(f, raw);
    && Increasing(raw) && (raw != [] ==> 0 < raw[0].t)
    && l.filter == Run(f, AT_REST, raw).0
    && l.last == (if raw == [] then 0 else Last(raw).t)
    && |l.queue| <= |raw| && l.queue == done[|raw| - |l.queue|..]
  }

  lemma AcceptTakes(f: LowPass, l: Lane, raw: seq<Sample>, r: Reading)
    requires Took(f, l, raw) && Accept(f, l, r).Some?
    ensures Took(f, Accept(f, l, r).value, raw + [r.sample])
    ensures exists s :: Accept(f, l, r).value.queue == l.queue + [s]
                        && Conditioned(f, raw + [r.sample]) == Conditioned(f, raw) + [s]
  {
    hide Step, Run;
    ConditionedSnoc(f, raw, r.sample);
    ConditionedIncreases(f, raw + [r.sample]);
  }

  lemma {:induction false} AcceptAllTakes(f: LowPass, l: Lane, raw: seq<Sample>, rs: seq<Reading>) returns (more: seq<Sample>)
    requires Took(f, l, raw) && AcceptAll(f, l, rs).Some?
    ensures Took(f, AcceptAll(f, l, rs).value, raw + Samples(rs))
    ensures AcceptAll(f, l, rs).value.queue == l.queue + more
    ensures Conditioned(f, raw + Samples(rs)) == Conditioned(f, raw) + more
  {
    hide Took, Conditioned, Accept;
    if rs == [] {
      assert raw + Samples(rs) == raw;
      assert l.queue + [] == l.queue && Conditioned(f, raw) + [] == Conditioned(f, raw);
      more := [];
    } else {
      var n := |rs| - 1;
      var most := AcceptAllTakes(f, l, raw, rs[..n]);
      var before := AcceptAll(f, l, rs[..n]).value;
      var taken := raw + Samples(rs[..n]);
      AcceptTakes(f, before, taken, rs[n]);
      var s :| Accept(f, before, rs[n]).value.queue == before.queue + [s]
               && Conditioned(f, taken + [rs[n].sample]) == Conditioned(f, taken) + [s];
      assert taken + [rs[n].sample] == raw + Samples(rs);
      assert (l.queue + most) + [s] == l.queue + (most + [s]);
      assert (Conditioned(f, raw) + most) + [s] == Conditioned(f, raw) + (most + [s]);
      more := most + [s];
    }
  }

  ghost predicate InStep(f: LowPass, p: Pairing, accels: seq<Sample>, gyros: seq<Sample>) {
    && Took(f, p.accel, accels) && Took(f, p.gyro, gyros)
    && Paired(Conditioned(f, accels), Conditioned(f, gyros), p.accel.queue, p.gyro.queue, p.rows)
    && p.rows == Rows(Conditioned(f, accels), Conditioned(f, gyros))
  }

  lemma DrainedLanes(f: LowPass, p: Pairing, accels: seq<Sample>, gyros: seq<Sample>,
                     aq: seq<Sample>, gq: seq<Sample>, rows: seq<Row>)
    requires Took(f, p.accel, accels) && Took(f, p.gyro, gyros)
    requires Paired(Conditioned(f, accels), Conditioned(f, gyros), aq, gq, rows)
    ensures Took(f, p.accel.(queue := aq), accels) && Took(f, p.gyro.(queue := gq), gyros)
  {
    hide Run, Rows, Increasing;
  }

  lemma TookIncreases(f: LowPass, l: Lane, raw: seq<Sample>)
    requires Took(f, l, raw)
    ensures Increasing(Conditioned(f, raw))
  {
    ConditionedIncreases(f, raw);
  }

  lemma RoundKeepsStep(f: LowPass, p: Pairing, accels: seq<Sample>, gyros: seq<Sample>, arrival: Arrival)
    requires InStep(f, p, accels, gyros) && Round(f, p, arrival).Some?
    ensures InStep(f, Round(f, p, arrival).value, accels + Samples(arrival.accels), gyros + Samples(arrival.gyros))
  {
    hide Took, Accept, AcceptAll, Drain, Rows, Paired, Conditioned;
    var accel := AcceptAll(f, p.accel, arrival.accels).value;
    var gyro := AcceptAll(f, p.gyro, arrival.gyros).value;
    var a := AcceptAllTakes(f, p.accel, accels, arrival.accels);
    var g := AcceptAllTakes(f, p.gyro, gyros, arrival.gyros);
    var allA, allG := accels + Samples(arrival.accels), gyros + Samples(arrival.gyros);
    TookIncreases(f, accel, allA);
    TookIncreases(f, gyro, allG);
    ArrivalKeepsPaired(Conditioned(f, accels), Conditioned(f, gyros), p.accel.queue, p.gyro.queue, p.rows, a, g);
    DrainKeepsPaired(Conditioned(f, allA), Conditioned(f, allG), accel.queue, gyro.queue, p.rows);
    var (aq, gq, rows) := Drain(accel.queue, gyro.queue);
    DrainedIsBatch(Conditioned(f, allA), Conditioned(f, allG), aq, gq, p.rows + rows);
    DrainedLanes(f, Pairing(accel, gyro, []), allA, allG, aq, gq, p.rows + rows);
  }

  lemma {:induction false} PairKeepsStep(f: LowPass, arrivals: seq<Arrival>)
    requires Pair(f, arrivals).Some?
    ensures InStep(f, Pair(f, arrivals).value, Accels(arrivals), Gyros(arrivals))
  {
    if arrivals == [] {
    } else {
      var n := |arrivals| - 1;
      PairKeepsStep(f, arrivals[..n]);
      hide InStep, Round;
      RoundKeepsStep(f, Pair(f, arrivals[..n]).value, Accels(arrivals[..n]), Gyros(arrivals[..n]), arrivals[n]);
    }
  }

  /**
   * Streaming equals batch: however the two streams are cut into reads, a run that does not stop has
   * emitted exactly the batch pairing of everything read so far.
   */
  lemma StreamingIsBatch(f: LowPass, arrivals: seq<Arrival>)
    requires Pair(f, arrivals).Some?
    ensures var a, g := Conditioned(f, Accels(arrivals)), Conditioned(f, Gyros(arrivals));
            Increasing(a) && Increasing(g) && Pair(f, arrivals).value.rows == Rows(a, g)
  {
    PairKeepsStep(f, arrivals);
  }

  /** Two ways of cutting the same streams give the same rows. */
  lemma ChunkingDoesNotMatter(f: LowPass, one: seq<Arrival>, other: seq<Arrival>)
    requires Pair(f, one).Some? && Pair(f, other).Some?
    requires Accels(one) == Accels(other) && Gyros(one) == Gyros(other)
    ensures Pair(f, one).value.rows == Pair(f, other).value.rows
  {
    StreamingIsBatch(f, one);
    StreamingIsBatch(f, other);
  }

  /**
   * The only ways a reading stops a lane that a run can reach are a timestamp that does not increase or
   * lies ahead of the clock, and a full queue: the check after filtering never fires.
   */
  lemma StopsExactlyWhen(f: LowPass, l: Lane, raw: seq<Sample>, r: Reading)
    requires Took(f, l, raw)
    ensures Accept(f, l, r).None?
            <==> (raw != [] && r.sample.t <= Last(raw).t) || r.sample.t <= 0 || r.sample.t > r.now + MAX_LEAD
                 || |l.queue| >= MAX_UNPAIRED
  {
    if l.queue != [] {
      assert Last(l.queue).t == Last(raw).t - f.delay;
    }
    if raw != [] {
      assert raw[0].t <= Last(raw).t;
    }
  }

  /** Rows are exactly the gyro samples inside the span of the accelerations, in order and each once. */
  lemma {:induction false} RowsAreTheCoveredGyros(accels: seq<Sample>, gyros: seq<Sample>)
    requires Increasing(accels) && Increasing(gyros)
    ensures forall i, j :: 0 <= i < j < |Rows(accels, gyros)| ==> Rows(accels, gyros)[i].t < Rows(accels, gyros)[j].t
    ensures forall r :: r in Rows(accels, gyros) <==>
              exists k :: 0 <= k < |gyros| && Covered(accels, gyros[k].t)
                          && r == Row(gyros[k].t, gyros[k].v, Interp(accels, gyros[k].t))
  {
    hide Interp;
    if gyros == [] {
    } else {
      var n := |gyros| - 1;
      RowsAreTheCoveredGyros(accels, gyros[..n]);
      var rest := Rows(accels, gyros[..n]);
      forall i | 0 <= i < |rest|
        ensures rest[i].t < gyros[n].t
      {
        assert rest[i] in rest;
      }
    }
  }

  // ---- the calibration tool

  function Keep(gyros: seq<Sample>, lo: Time, hi: Time): (r: seq<Sample>)
    ensures forall i :: 0 <= i < |r| ==> lo <= r[i].t <= hi
  {
    if gyros == [] then []
    else
      var rest := Keep(gyros[..|gyros| - 1], lo, hi);
      if lo <= Last(gyros).t <= hi then rest + [Last(gyros)] else rest
  }

  function Larger(a: Time, b: Time): Time {
    if a < b then b else a
  }

  function Smaller(a: Time, b: Time): Time {
    if a < b then a else b
  }

  const MIN_ROWS := 100

  /** The tool's check: every sample is later than its predecessor. */
  predicate StepsUp(s: seq<Sample>) {
    forall i :: 0 < i < |s| ==> s[i - 1].t < s[i].t
  }

  lemma {:induction false} StepsUpIncreases(s: seq<Sample>)
    ensures StepsUp(s) <==> Increasing(s)
  {
    if s == [] {
    } else {
      var n := |s| - 1;
      StepsUpIncreases(s[..n]);
      if StepsUp(s) {
        assert forall i :: 0 <= i < n ==> s[..n][i] == s[i];
        assert n > 0 ==> s[n - 1].t < s[n].t;
      } else if Increasing(s) {
        assert false;
      }
    }
  }

  /** `main`: the rows of the file it writes, or None where it gives up. */
  function Kalibr(accels: seq<Sample>, gyros: seq<Sample>, start: Option<Time>, end: Option<Time>): Option<seq<Row>> {
    if accels == [] || gyros == [] || !StepsUp(accels) || !StepsUp(gyros) then None
    else
      StepsUpIncreases(accels);
      var lo := Larger(gyros[0].t, accels[0].t);
      var lo := if start.Some? then Larger(lo, start.value) else lo;
      var hi := Smaller(Last(gyros).t, Last(accels).t);
      var hi := if end.Some? then Smaller(hi, end.value) else hi;
      var kept := Keep(gyros, lo, hi);
      if |kept| < MIN_ROWS then None
      else Some(seq(|kept|, i requires 0 <= i < |kept| => Row(kept[i].t, kept[i].v, Interp(accels, kept[i].t))))
  }

  predicate Within(start: Option<Time>, end: Option<Time>, t: Time) {
    (start.Some? ==> start.value <= t) && (end.Some? ==> t <= end.value)
  }

  function Trim(rows: seq<Row>, start: Option<Time>, end: Option<Time>): seq<Row> {
    if rows == [] then []
    else
      var rest := Trim(rows[..|rows| - 1], start, end);
      if Within(start, end, rows[|rows| - 1].t) then rest + [rows[|rows| - 1]] else rest
  }

  lemma {:induction false} KeptRows(accels: seq<Sample>, gyros: seq<Sample>, start: Option<Time>, end: Option<Time>,
                                    lo: Time, hi: Time)
    requires Increasing(accels) && accels != [] && accels[0].t <= lo && hi <= Last(accels).t
    requires forall i :: 0 <= i < |gyros| ==>
               (lo <= gyros[i].t <= hi <==> Covered(accels, gyros[i].t) && Within(start, end, gyros[i].t))
    ensures var kept := Keep(gyros, lo, hi);
            seq(|kept|, i requires 0 <= i < |kept| => Row(kept[i].t, kept[i].v, Interp(accels, kept[i].t)))
            == Trim(Rows(accels, gyros), start, end)
  {
    hide Interp, Within;
    if gyros == [] {
    } else {
      var n := |gyros| - 1;
      var g := gyros[n];
      KeptRows(accels, gyros[..n], start, end, lo, hi);
      var rest := Rows(accels, gyros[..n]);
      if Covered(accels, g.t) {
        assert (rest + [Row(g.t, g.v, Interp(accels, g.t))])[..|rest|] == rest;
      }
    }
  }

  /**
   * The calibration tool writes the rows of the specification, cut to the requested window, and gives
   * up exactly when a stream is empty or not increasing or fewer than a hundred rows remain.
   */
  lemma KalibrIsBatch(accels: seq<Sample>, gyros: seq<Sample>, start: Option<Time>, end: Option<Time>)
    ensures var r := Kalibr(accels, gyros, start, end);
            && (r.Some? <==> accels != [] && gyros != [] && Increasing(accels) && Increasing(gyros)
                             && |Trim(Rows(accels, gyros), start, end)| >= MIN_ROWS)
            && (r.Some? ==> r.value == Trim(Rows(accels, gyros), start, end))
  {
    hide Interp, Rows, Trim;
    StepsUpIncreases(accels);
    StepsUpIncreases(gyros);
    if accels != [] && gyros != [] && Increasing(accels) && Increasing(gyros) {
      var lo := Larger(gyros[0].t, accels[0].t);
      var lo' := if start.Some? then Larger(lo, start.value) else lo;
      var hi := Smaller(Last(gyros).t, Last(accels).t);
      var hi' := if end.Some? then Smaller(hi, end.value) else hi;
      forall i | 0 <= i < |gyros|
        ensures lo' <= gyros[i].t <= hi' <==> Covered(accels, gyros[i].t) && Within(start, end, gyros[i].t)
      {
        Ordered(gyros, 0, i);
        Ordered(gyros, i, |gyros| - 1);
      }
      KeptRows(accels, gyros, start, end, lo', hi');
    }
  }

  lemma {:induction false} NothingToTrim(rows: seq<Row>)
    ensures Trim(rows, None, None) == rows
  {
    if rows == [] {
    } else {
      NothingToTrim(rows[..|rows| - 1]);
    }
  }

  /** The live pairing gives the calibration tool's rows for the recording of the same streams. */
  lemma StreamingIsCalibration(f: LowPass, arrivals: seq<Arrival>)
    requires Pair(f, arrivals).Some?
    ensures var a, g := Conditioned(f, Accels(arrivals)), Conditioned(f, Gyros(arrivals));
            var rows := Pair(f, arrivals).value.rows;
            Kalibr(a, g, None, None) == if |rows| >= MIN_ROWS then Some(rows) else None
  {
    hide Kalibr, Conditioned, Pair;
    var a, g := Conditioned(f, Accels(arrivals)), Conditioned(f, Gyros(arrivals));
    StreamingIsBatch(f, arrivals);
    KalibrIsBatch(a, g, None, None);
    NothingToTrim(Rows(a, g));
    if a == [] {
      RowsOfUncovered(a, g, 0);
    }
  }

  // ---- the thread's state

  lemma {:induction false} AcceptAllStops(f: LowPass, l: Lane, rs: seq<Reading>, n: nat)
    requires n <= |rs| && AcceptAll(f, l, rs[..n]).None?
    ensures AcceptAll(f, l, rs).None?
    decreases |rs|
  {
    if n < |rs| {
      assert rs[..|rs| - 1][..n] == rs[..n];
      AcceptAllStops(f, l, rs[..|rs| - 1], n);
    } else {
      assert rs[..n] == rs;
    }
  }

  /** A drain that goes on after `rows` were already emitted. */
  function After(rows: seq<Row>, d: (seq<Sample>, seq<Sample>, seq<Row>)): (seq<Sample>, seq<Sample>, seq<Row>) {
    (d.0, d.1, rows + d.2)
  }

  lemma DrainOne(rows: seq<Row>, aq: seq<Sample>, gq: seq<Sample>)
    requires gq != [] && aq != [] && gq[0].t <= Last(aq).t
    ensures gq[0].t < aq[0].t ==> Drain(aq, gq) == Drain(aq, gq[1..])
    ensures aq[0].t <= gq[0].t ==>
              var head := Advance(aq, gq[0].t);
              && head != []
              && After(rows, Drain(aq, gq))
                 == After(rows + [Row(gq[0].t, gq[0].v, AtHead(head, gq[0].t))], Drain(head, gq[1..]))
  {
    hide AtHead;
    if aq[0].t <= gq[0].t {
      AdvanceKeepsOne(aq, gq[0].t);
      var row := Row(gq[0].t, gq[0].v, AtHead(Advance(aq, gq[0].t), gq[0].t));
      var more := Drain(Advance(aq, gq[0].t), gq[1..]).2;
      assert rows + ([row] + more) == (rows + [row]) + more;
    }
  }

  lemma DrainStops(aq: seq<Sample>, gq: seq<Sample>)
    requires gq == [] || aq == [] || Last(aq).t < gq[0].t
    ensures Drain(aq, gq) == (aq, gq, [])
  {
  }

  class ImuPairing {
    const filter: LowPass
    const af: ImuLowPassState
    const gf: ImuLowPassState
    var lastAccel: Time
    var lastGyro: Time
    var aq: seq<Sample>
    var gq: seq<Sample>
    var rows: seq<Row>

    ghost predicate Valid() {
      af != gf
    }

    ghost function View(): Pairing
      reads this, af, gf
    {
      Pairing(Lane(af.View(), lastAccel, aq), Lane(gf.View(), lastGyro, gq), rows)
    }

    constructor (filter: LowPass)
      ensures Valid() && View() == IDLE && this.filter == filter && fresh(af) && fresh(gf)
    {
      this.filter := filter;
      af := new ImuLowPassState();
      gf := new ImuLowPassState();
      lastAccel, lastGyro, aq, gq, rows := 0, 0, [], [], [];
    }

    method AcceptAccel(t: Time, v: Vec3, now: Time) returns (ok: bool)
      requires Valid()
      modifies this`lastAccel, this`aq, af
      ensures ok == old(Accept(filter, View().accel, Reading(Sample(t, v), now)).Some?)
      ensures ok ==> View().accel == old(Accept(filter, View().accel, Reading(Sample(t, v), now)).value)
      ensures gf.View() == old(gf.View())
    {
      if t <= lastAccel || t > now + MAX_LEAD {
        return false;
      }
      lastAccel := t;
      var filtered := af.Filter(filter, t, v);
      if |aq| >= MAX_UNPAIRED || (aq != [] && t - filter.delay <= Last(aq).t) {
        return false;
      }
      aq := aq + [Sample(t - filter.delay, filtered)];
      return true;
    }

    method AcceptGyro(t: Time, v: Vec3, now: Time) returns (ok: bool)
      requires Valid()
      modifies this`lastGyro, this`gq, gf
      ensures ok == old(Accept(filter, View().gyro, Reading(Sample(t, v), now)).Some?)
      ensures ok ==> View().gyro == old(Accept(filter, View().gyro, Reading(Sample(t, v), now)).value)
      ensures af.View() == old(af.View())
    {
      if t <= lastGyro || t > now + MAX_LEAD {
        return false;
      }
      lastGyro := t;
      var filtered := gf.Filter(filter, t, v);
      if |gq| >= MAX_UNPAIRED || (gq != [] && t - filter.delay <= Last(gq).t) {
        return false;
      }
      gq := gq + [Sample(t - filter.delay, filtered)];
      return true;
    }

    /** The record loop over what one read returned. */
    method Read(accel: bool, readings: seq<Reading>) returns (ok: bool)
      requires Valid()
      modifies this`lastAccel, this`lastGyro, this`aq, this`gq, af, gf
      ensures var lane := old(if accel then View().accel else View().gyro);
              ok == AcceptAll(filter, lane, readings).Some?
      ensures var lane := old(if accel then View().accel else View().gyro);
              ok ==> (if accel then View().accel else View().gyro) == AcceptAll(filter, lane, readings).value
                     && (if accel then View().gyro else View().accel) == old(if accel then View().gyro else View().accel)
    {
      ghost var lane := if accel then View().accel else View().gyro;
      ghost var other := if accel then View().gyro else View().accel;
      var i := 0;
      while i < |readings|
        invariant 0 <= i <= |readings|
        invariant AcceptAll(filter, lane, readings[..i]) == Some(if accel then View().accel else View().gyro)
        invariant (if accel then View().gyro else View().accel) == other
      {
        var r := readings[i];
        assert readings[..i + 1][..i] == readings[..i];
        if accel {
          ok := AcceptAccel(r.sample.t, r.sample.v, r.now);
        } else {
          ok := AcceptGyro(r.sample.t, r.sample.v, r.now);
        }
        if !ok {
          AcceptAllStops(filter, lane, readings, i + 1);
          return false;
        }
        i := i + 1;
      }
      assert readings[..i] == readings;
      return true;
    }

    /** The pairing loop. */
    method PairUp()
      modifies this`aq, this`gq, this`rows
      ensures var (a, g, more) := old(Drain(aq, gq));
              aq == a && gq == g && rows == old(rows) + more
    {
      hide Lerp, Drain;
      ghost var all := Drain(aq, gq);
      ghost var before := rows;
      ghost var emitted: seq<Row> := [];
      assert emitted + all.2 == all.2 && before + emitted == before;
      while gq != [] && aq != [] && Last(aq).t >= gq[0].t
        invariant rows == before + emitted && After(emitted, Drain(aq, gq)) == all
        decreases |gq|
      {
        var tg, w := gq[0].t, gq[0].v;
        DrainOne(emitted, aq, gq);
        gq := gq[1..];
        if tg < aq[0].t {
          continue;
        }
        ghost var head := Advance(aq, tg);
        while |aq| >= 2 && aq[1].t <= tg
          invariant Advance(aq, tg) == head && aq != []
          modifies `aq
        {
          aq := aq[1..];
        }
        var accel := aq[0].v;
        if |aq| >= 2 && aq[1].t > aq[0].t {
          accel := Lerp(aq[0], aq[1], tg);
        }
        rows := rows + [Row(tg, w, accel)];
        emitted := emitted + [Row(tg, w, accel)];
      }
      DrainStops(aq, gq);
    }

    /** One round of the thread's loop: read both devices, then pair. */
    method Serve(arrival: Arrival) returns (ok: bool)
      requires Valid()
      modifies this, af, gf
      ensures ok == old(Round(filter, View(), arrival).Some?)
      ensures ok ==> View() == old(Round(filter, View(), arrival).value)
    {
      ok := Read(true, arrival.accels);
      if !ok {
        return;
      }
      ok := Read(false, arrival.gyros);
      if !ok {
        return;
      }
      PairUp();
    }
  }
}
