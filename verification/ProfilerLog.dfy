/** Log entries of microprofile.h and the per-thread ring they are put in and drained from. */
module ProfilerLog {

  const TICKS: nat := 0x1_0000_0000_0000
  const WORD: nat := 0x1_0000_0000_0000_0000
  const BUFFER_SIZE: nat := 262144

  const ENTER: nat := 1
  const LEAVE: nat := 0

  /** A 64-bit log entry: 2 bits of type, 14 of timer index, 48 of tick. */
  type Entry = e: nat | e < WORD

  function LogType(e: Entry): (t: nat)
    ensures t < 4
  {
    e / 0x4000_0000_0000_0000
  }

  function TimerIndex(e: Entry): (t: nat)
    ensures t < 0x4000
  {
    e / TICKS % 0x4000
  }

  function GetTick(e: Entry): nat
  {
    e % TICKS
  }

  function MakeEntry(kind: nat, token: nat, tick: nat): (e: Entry)
    requires kind < 4
  {
    kind * 0x4000_0000_0000_0000 + token % 0x4000 * TICKS + tick % TICKS
  }

  /** 64-bit subtraction of the ticks in the high 48 bits, shifted back arithmetically. */
  function TickDifference(start: Entry, end: Entry): int
  {
    var d := (end * 0x1_0000 - start * 0x1_0000) % WORD;
    var signed := if d < WORD / 2 then d else d - WORD;
    signed / 0x1_0000
  }

  /** Every field comes back from a packed entry. */
  lemma EntryFields(kind: nat, token: nat, tick: nat)
    requires kind < 4
    ensures var e := MakeEntry(kind, token, tick);
            LogType(e) == kind && TimerIndex(e) == token % 0x4000 && GetTick(e) == tick % TICKS
  {
  }

  /** x reduced to the range of a signed 48-bit number. */
  function Wrap48(x: int): int
  {
    if x % TICKS < TICKS / 2 then x % TICKS else x % TICKS - TICKS
  }

  /** Only the tick fields matter, and they wrap at 48 bits. */
  lemma DifferenceWraps(start: Entry, end: Entry)
    ensures TickDifference(start, end) == Wrap48(GetTick(end) - GetTick(start))
  {
    var x, y := end - start, GetTick(end) - GetTick(start);
    ModShift(y, end / TICKS - start / TICKS);
    assert x == y + TICKS * (end / TICKS - start / TICKS);
    ScaledMod(x);
    assert end * 0x1_0000 - start * 0x1_0000 == 0x1_0000 * x;
  }

  lemma ModShift(y: int, k: int)
    ensures (y + TICKS * k) % TICKS == y % TICKS
  {
    var q, r := y / TICKS, y % TICKS;
    assert y + TICKS * k == TICKS * (q + k) + r;
  }

  lemma ScaledMod(x: int)
    ensures 0x1_0000 * x % WORD == 0x1_0000 * (x % TICKS)
  {
    var q, r := x / TICKS, x % TICKS;
    assert 0x1_0000 * x == WORD * q + 0x1_0000 * r;
  }

  /** Clock readings less than 2^47 ticks apart are told apart exactly, whatever the wrap. */
  lemma DifferenceExact(k1: nat, t1: nat, tick1: nat, k2: nat, t2: nat, tick2: nat)
    requires k1 < 4 && k2 < 4 && -(TICKS / 2) <= tick2 - tick1 < TICKS / 2
    ensures TickDifference(MakeEntry(k1, t1, tick1), MakeEntry(k2, t2, tick2)) == tick2 - tick1
  {
    EntryFields(k1, t1, tick1);
    EntryFields(k2, t2, tick2);
    DifferenceWraps(MakeEntry(k1, t1, tick1), MakeEntry(k2, t2, tick2));
  }
}
