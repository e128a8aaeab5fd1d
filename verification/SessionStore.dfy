/**
 * The durable reset counter (src/session_store.cpp) on a disk that keeps only what was synced.
 *
 * A file's bytes survive a power loss once the file was synced; a rename survives once the directory was
 * synced, and otherwise may or may not. Reservations are numbered by an unbounded count: the file of
 * reservation n (from 1) holds the byte (n - 1) mod 256, and no file at all stands for n = 0.
 */
module SessionStores {
  import opened Basics

  /** The text of a counter file: one decimal number, or anything else. */
  datatype Content = Number(value: nat) | Malformed

  datatype File = File(content: Content, synced: bool)

  /**
   * `names[0]` is what the counter's name refers to after a power loss at the latest; later entries are
   * renames the directory has not been synced for. The last entry is what a reader sees now.
   */
  datatype Disk = Disk(names: seq<Option<File>>, scratch: Option<File>) {
    predicate Valid() {
      names != []
    }

    function Current(): Option<File>
      requires Valid()
    {
      names[|names| - 1]
    }
  }

  /** Where an attempt ends early, by an error of that call or because the process dies before it. */
  datatype Stop = AtOpen | AtWrite(partial: Content) | AtSync | AtRename | AtDirectory | Nowhere

  predicate Readable(f: Option<File>) {
    f.Some? ==> f.value.content.Number? && f.value.content.value <= 255
  }

  function Next(f: Option<File>): Byte
    requires Readable(f)
  {
    if f.None? then 0 else (f.value.content.value + 1) % 256
  }

  /** One call of `reserve_reset`: what it leaves on disk, and the byte it returns unless it throws. */
  function Reserve(d: Disk, stop: Stop): (Disk, Option<Byte>)
    requires d.Valid()
  {
    if !Readable(d.Current()) then (d, None)
    else
      var next := Next(d.Current());
      var written := File(Number(next), false);
      var synced := File(Number(next), true);
      match stop
      case AtOpen => (d, None)
      case AtWrite(partial) => (d.(scratch := Some(File(partial, false))), None)
      case AtSync => (d.(scratch := Some(written)), None)
      case AtRename => (d.(scratch := Some(synced)), None)
      case AtDirectory => (Disk(d.names + [Some(synced)], None), None)
      case Nowhere => (Disk([Some(synced)], None), Some(next))
  }

  /** The store object: the same attempt, one file-system call after the other. */
  class SessionStore {
    var names: seq<Option<File>>
    var scratch: Option<File>

    ghost function View(): Disk
      reads this
    {
      Disk(names, scratch)
    }

    constructor (disk: Disk)
      ensures View() == disk
    {
      names, scratch := disk.names, disk.scratch;
    }

    method ReserveReset(stop: Stop) returns (reserved: Option<Byte>)
      requires View().Valid()
      modifies this
      ensures View().Valid() && (View(), reserved) == old(Reserve(View(), stop))
    {
      var next: Byte := 0;
      var path := names[|names| - 1];
      if path.Some? {
        if path.value.content.Malformed? || path.value.content.value > 255 {
          return None;
        }
        next := (path.value.content.value + 1) % 256;
      }
      if stop.AtOpen? {
        return None;
      }
      // Opening truncates; an interrupted write leaves whatever it had written.
      if stop.AtWrite? {
        scratch := Some(File(stop.partial, false));
        return None;
      }
      scratch := Some(File(Number(next), false));
      if stop.AtSync? {
        return None;
      }
      scratch := Some(scratch.value.(synced := true));
      if stop.AtRename? {
        return None;
      }
      names := names + [scratch];
      scratch := None;
      if stop.AtDirectory? {
        return None;
      }
      names := [names[|names| - 1]];
      reserved := Some(next);
    }
  }

  // ---- whole histories

  /**
   * A disk with the reservation number behind every entry of `names`, and the reservations handed out so
   * far as numbers and as the bytes actually returned.
   */
  datatype Ledger = Ledger(disk: Disk, numbers: seq<nat>, handedOut: seq<nat>, bytes: seq<Byte>)

  datatype Happening =
    | Attempt(stop: Stop)
    /** Power fails; the name then refers to one of its entries, and a file never synced holds `garbage`. */
    | PowerLoss(pick: nat, garbage: Content)

  function Survive(f: Option<File>, garbage: Content): Option<File> {
    if f.None? || f.value.synced then f else Some(File(garbage, true))
  }

  /** Each name on disk has its number. */
  predicate Numbered(l: Ledger) {
    l.disk.Valid() && |l.numbers| == |l.disk.names|
  }

  function Happen(l: Ledger, h: Happening): (r: Ledger)
    requires Numbered(l)
    ensures Numbered(r)
  {
    match h
    case PowerLoss(pick, garbage) =>
      var found := pick % |l.disk.names|;
      l.(disk := Disk([Survive(l.disk.names[found], garbage)], None), numbers := [l.numbers[found]])
    case Attempt(stop) =>
      var (disk, reserved) := Reserve(l.disk, stop);
      var number := l.numbers[|l.numbers| - 1] + 1;
      if reserved.Some? then
        Ledger(disk, [number], l.handedOut + [number], l.bytes + [reserved.value])
      else
        l.(disk := disk, numbers := if |disk.names| > |l.disk.names| then l.numbers + [number] else l.numbers)
  }

  /** The file of reservation `number` is intact. */
  predicate Holds(f: Option<File>, number: nat) {
    if number == 0 then f.None? else f == Some(File(Number(ByteOf(number)), true))
  }

  function ByteOf(number: nat): Byte {
    (number + 255) % 256
  }

  ghost predicate Increasing(s: seq<nat>) {
    forall i, j :: 0 <= i < j < |s| ==> s[i] < s[j]
  }

  /** Every entry the disk may come back with is an intact reservation, none older than one handed out. */
  ghost predicate Sound(l: Ledger) {
    && l.disk.Valid() && |l.numbers| == |l.disk.names| && |l.bytes| == |l.handedOut|
    && (forall i :: 0 <= i < |l.numbers| ==> Holds(l.disk.names[i], l.numbers[i]))
    && (forall i :: 0 <= i < |l.numbers| ==> l.numbers[0] <= l.numbers[i] <= l.numbers[|l.numbers| - 1])
    && Increasing(l.handedOut)
    && (forall i :: 0 <= i < |l.handedOut| ==> 0 < l.handedOut[i] <= l.numbers[0])
    && (forall i :: 0 <= i < |l.handedOut| ==> l.bytes[i] == ByteOf(l.handedOut[i]))
  }

  /** A first start: no counter file, nothing handed out. */
  const EMPTY := Ledger(Disk([None], None), [0], [], [])

  lemma ReserveIsNext(d: Disk, stop: Stop, number: nat)
    requires d.Valid() && Holds(d.Current(), number)
    ensures var (r, reserved) := Reserve(d, stop);
            && (reserved.Some? ==> reserved.value == ByteOf(number + 1) && |r.names| == 1)
            && (|r.names| > |d.names| || reserved.Some? ==> Holds(r.Current(), number + 1))
            && (reserved.None? ==> r.names == d.names || (|r.names| == |d.names| + 1 && r.names[..|d.names|] == d.names))
            && (reserved.Some? <==> stop.Nowhere?) && (|r.names| > |d.names| <==> stop.AtDirectory?)
  {
    assert ByteOf(number + 1) == number % 256;
    if number > 0 {
      assert (ByteOf(number) + 1) % 256 == number % 256;
    }
  }

  /** The file holds a byte in decimal, or there is none yet. */
  predicate Intact(f: Option<File>) {
    f == None || exists n: Byte :: f.value.content == Number(n)
  }

  /** A counter file that holds anything but a byte is refused and left alone, wherever the attempt would have stopped. */
  lemma DamageIsRefused(d: Disk, stop: Stop)
    requires d.Valid()
    ensures !Intact(d.Current()) ==> Reserve(d, stop) == (d, None)
    ensures Reserve(d, Nowhere).1.Some? <==> Intact(d.Current())
  {
    var f := d.Current();
    if f.Some? && f.value.content.Number? && f.value.content.value <= 255 {
      var n: Byte := f.value.content.value;
      assert f.value.content == Number(n);
    }
  }

  lemma SuccessKeepsSound(l: Ledger)
    requires Sound(l)
    ensures Sound(Happen(l, Attempt(Nowhere)))
  {
    var last := l.numbers[|l.numbers| - 1];
    assert Holds(l.disk.Current(), last);
    ReserveIsNext(l.disk, Nowhere, last);
    assert forall i :: 0 <= i < |l.handedOut| ==> l.handedOut[i] <= last;
  }

  lemma FailureKeepsSound(l: Ledger, stop: Stop)
    requires Sound(l) && !stop.Nowhere?
    ensures Sound(Happen(l, Attempt(stop)))
  {
    var last := l.numbers[|l.numbers| - 1];
    assert Holds(l.disk.Current(), last);
    ReserveIsNext(l.disk, stop, last);
    var r := Happen(l, Attempt(stop));
    assert r.numbers == l.numbers || r.numbers == l.numbers + [last + 1];
    forall i | 0 <= i < |r.numbers|
      ensures Holds(r.disk.names[i], r.numbers[i])
    {
      if i < |l.numbers| {
        assert r.disk.names[i] == l.disk.names[i];
      }
    }
  }

  lemma HappenKeepsSound(l: Ledger, h: Happening)
    requires Sound(l)
    ensures Sound(Happen(l, h))
  {
    match h {
      case Attempt(stop) =>
        if stop.Nowhere? {
          SuccessKeepsSound(l);
        } else {
          FailureKeepsSound(l, stop);
        }
      case PowerLoss(pick, _) =>
        assert Holds(l.disk.names[pick % |l.disk.names|], l.numbers[pick % |l.disk.names|]);
    }
  }

  /**
   * Durability: from any intact disk, whatever step each attempt stops at and whenever power fails, the
   * reservations handed out strictly increase, the bytes are those reservations mod 256, the file is
   * never found malformed, and the disk never comes back older than the last reservation handed out.
   */
  ghost function History(start: Ledger, happenings: seq<Happening>): (r: Ledger)
    requires Sound(start)
    ensures Sound(r)
  {
    if happenings == [] then start
    else
      var before := History(start, happenings[..|happenings| - 1]);
      HappenKeepsSound(before, happenings[|happenings| - 1]);
      Happen(before, happenings[|happenings| - 1])
  }

  lemma TurnsAgree(a: nat, lost: nat)
    ensures (a + lost + 1) % 256 == a % 256 <==> lost % 256 == 255
  {
    assert a == 256 * (a / 256) + a % 256 && lost == 256 * (lost / 256) + lost % 256;
  }

  /**
   * The byte itself can come back: a new reservation carries the byte handed out last exactly when the
   * reservations that reached the disk since, without being handed out, are 255 modulo 256.
   */
  lemma SameByteExactlyAfterAFullTurn(l: Ledger)
    requires Sound(l) && l.handedOut != []
    ensures var r := Happen(l, Attempt(Nowhere));
            var previous := l.handedOut[|l.handedOut| - 1];
            var lost := l.numbers[|l.numbers| - 1] - previous;
            && lost >= 0 && r.handedOut == l.handedOut + [previous + lost + 1]
            && r.bytes == l.bytes + [ByteOf(previous + lost + 1)]
            && (ByteOf(previous + lost + 1) == l.bytes[|l.bytes| - 1] <==> lost % 256 == 255)
  {
    var last := l.numbers[|l.numbers| - 1];
    assert Holds(l.disk.Current(), last);
    ReserveIsNext(l.disk, Nowhere, last);
    TurnsAgree(l.handedOut[|l.handedOut| - 1] + 255, last - l.handedOut[|l.handedOut| - 1]);
  }

  /** Attempts that keep failing after the rename, as a process stopped before each directory sync does. */
  function Failing(l: Ledger, times: nat): (r: Ledger)
    requires Numbered(l)
    ensures Numbered(r)
  {
    if times == 0 then l else Happen(Failing(l, times - 1), Attempt(AtDirectory))
  }

  lemma {:induction false} FailuresReachTheDisk(l: Ledger, times: nat)
    requires Sound(l)
    ensures var r := Failing(l, times);
            && Sound(r) && r.handedOut == l.handedOut && r.bytes == l.bytes
            && r.numbers[|r.numbers| - 1] == l.numbers[|l.numbers| - 1] + times
  {
    if times == 0 {
    } else {
      var m := Failing(l, times - 1);
      FailuresReachTheDisk(l, times - 1);
      HappenKeepsSound(m, Attempt(AtDirectory));
      FailureReachesTheDisk(m);
    }
  }

  lemma FailureReachesTheDisk(l: Ledger)
    requires Sound(l)
    ensures var r := Happen(l, Attempt(AtDirectory));
            && r.handedOut == l.handedOut && r.bytes == l.bytes
            && r.numbers == l.numbers + [l.numbers[|l.numbers| - 1] + 1]
  {
    assert Holds(l.disk.Current(), l.numbers[|l.numbers| - 1]);
  }

  /**
   * Crashes do reuse the byte: after any reservation, let attempts die between the rename and the
   * directory sync and then one succeed. It returns the byte of the last reservation again exactly
   * after 255 such deaths (or 255 more than a multiple of 256).
   */
  lemma CrashesCanReuseTheByte(l: Ledger, deaths: nat)
    requires Sound(l) && l.handedOut != [] && l.handedOut[|l.handedOut| - 1] == l.numbers[|l.numbers| - 1]
    ensures var again := Happen(Failing(l, deaths), Attempt(Nowhere));
            && |again.bytes| == |l.bytes| + 1
            && (again.bytes[|l.bytes|] == l.bytes[|l.bytes| - 1] <==> deaths % 256 == 255)
  {
    hide Happen, Failing, Holds;
    FailuresReachTheDisk(l, deaths);
    SameByteExactlyAfterAFullTurn(Failing(l, deaths));
  }

  lemma FirstStartIsSound()
    ensures Sound(EMPTY)
  {
  }

  lemma FirstByteIsZero(first: Ledger)
    requires first == Happen(EMPTY, Attempt(Nowhere))
    ensures Sound(first) && first.bytes == [0] && first.numbers == [1] && first.handedOut == [1]
  {
    FirstStartIsSound();
    SuccessKeepsSound(EMPTY);
  }

  lemma AgainAfterDeaths(l: Ledger, deaths: nat)
    requires Sound(l) && |l.bytes| == 1 && l.handedOut == [l.numbers[|l.numbers| - 1]] && deaths % 256 == 255
    ensures Happen(Failing(l, deaths), Attempt(Nowhere)).bytes == l.bytes + l.bytes
  {
    hide Happen, Failing, Holds;
    FailuresReachTheDisk(l, deaths);
    CrashesCanReuseTheByte(l, deaths);
    SameByteExactlyAfterAFullTurn(Failing(l, deaths));
  }

  /** For one: a first start hands out the byte 0, and after 255 such deaths the next start does again. */
  lemma ByteZeroComesBack()
    ensures var first := Happen(EMPTY, Attempt(Nowhere));
            Sound(first) && first.bytes == [0] && Happen(Failing(first, 255), Attempt(Nowhere)).bytes == [0, 0]
  {
    hide Happen, Failing, Sound;
    var first := Happen(EMPTY, Attempt(Nowhere));
    FirstByteIsZero(first);
    AgainAfterDeaths(first, 255);
    assert [0] + [0] == [0, 0];
  }
}
