/** Where a BC6H block keeps the low bits of its endpoints: the same places in all fourteen modes. */
module Bc6hLayout {
  import opened Bits
  import opened Bc6hRegister
  import opened Bc6hModes
  import opened Bc6hHeader
  import opened Bc6h

  /** First bit of a channel in the block, for the channels and the partition number whose low bits
      lie together. */
  function LowStart(ep: nat, ch: Channel): (at: nat)
    ensures at <= 77
  {
    match ch
    case R => if ep == 0 then 5 else if ep == 1 then 35 else if ep == 2 then 65 else if ep == 3 then 71 else 77
    case G => if ep == 0 then 15 else if ep == 1 then 45 else if ep == 2 then 41 else 51
    case B => if ep == 0 then 25 else if ep == 1 then 55 else 61
  }

  /** Field i holds the low bits of a channel. */
  predicate Low(fs: seq<Field>, i: nat, ep: nat, ch: Channel)
  {
    i < |fs| && fs[i].ep == ep && fs[i].ch == ch && fs[i].lsb == 0 && fs[i].msb >= 3
  }

  /** So it does, and lies where the block keeps them. */
  predicate LowAt(fs: seq<Field>, i: nat, ep: nat, ch: Channel, at: int)
  {
    Low(fs, i, ep, ch) && Offset(fs, i) == at
  }

  /** After a mode number of w bits some field holds the low bits of a channel where they belong. */
  ghost predicate HasLow(fs: seq<Field>, w: nat, ep: nat, ch: Channel)
  {
    exists i, at :: LowAt(fs, i, ep, ch, at) && w + at == LowStart(ep, ch)
  }

  /** The first two endpoints. */
  ghost predicate FirstTwo(fs: seq<Field>, w: nat)
  {
    HasLow(fs, w, 0, R) && HasLow(fs, w, 0, G) && HasLow(fs, w, 0, B)
    && HasLow(fs, w, 1, R) && HasLow(fs, w, 1, G) && HasLow(fs, w, 1, B)
  }

  /** The other two but for one channel, and the partition number. */
  ghost predicate OtherTwo(fs: seq<Field>, w: nat)
  {
    HasLow(fs, w, 2, R) && HasLow(fs, w, 2, G) && HasLow(fs, w, 2, B)
    && HasLow(fs, w, 3, R) && HasLow(fs, w, 3, G) && HasLow(fs, w, PARTITION, R)
  }

  lemma FirstFrom(fs: seq<Field>, w: nat, r0: nat, g0: nat, b0: nat, r1: nat, g1: nat, b1: nat)
    requires LowAt(fs, r0, 0, R, 5 - w) && LowAt(fs, g0, 0, G, 15 - w) && LowAt(fs, b0, 0, B, 25 - w)
    requires LowAt(fs, r1, 1, R, 35 - w) && LowAt(fs, g1, 1, G, 45 - w) && LowAt(fs, b1, 1, B, 55 - w)
    ensures FirstTwo(fs, w)
  {
  }

  lemma OtherFrom(fs: seq<Field>, w: nat, r2: nat, g2: nat, b2: nat, r3: nat, g3: nat, p: nat)
    requires LowAt(fs, r2, 2, R, 65 - w) && LowAt(fs, g2, 2, G, 41 - w) && LowAt(fs, b2, 2, B, 61 - w)
    requires LowAt(fs, r3, 3, R, 71 - w) && LowAt(fs, g3, 3, G, 51 - w) && LowAt(fs, p, PARTITION, R, 77 - w)
    ensures OtherTwo(fs, w)
  {
  }

  // ----- the modes one by one

  lemma Start0(fs: seq<Field>)
    requires fs == Mode0()
    ensures Offset(fs, 3) == 3 && Offset(fs, 4) == 13 && Offset(fs, 5) == 23 && Offset(fs, 6) == 33
  {
    assert Offset(fs, 1) == 1 && Offset(fs, 2) == 2 && Offset(fs, 3) == 3 && Offset(fs, 4) == 13;
    assert Offset(fs, 5) == 23 && Offset(fs, 6) == 33;
  }

  lemma Middle0(fs: seq<Field>)
    requires fs == Mode0()
    ensures Offset(fs, 3) == 3 && Offset(fs, 4) == 13 && Offset(fs, 5) == 23 && Offset(fs, 6) == 33
    ensures Offset(fs, 8) == 39 && Offset(fs, 9) == 43 && Offset(fs, 11) == 49 && Offset(fs, 12) == 53
  {
    Start0(fs);
    assert Offset(fs, 7) == 38 && Offset(fs, 8) == 39 && Offset(fs, 9) == 43 && Offset(fs, 10) == 48;
    assert Offset(fs, 11) == 49 && Offset(fs, 12) == 53;
  }

  lemma Low0(fs: seq<Field>)
    requires fs == Mode0()
    ensures FirstTwo(fs, 2) && OtherTwo(fs, 2)
  {
    Middle0(fs);
    assert Offset(fs, 13) == 58 && Offset(fs, 14) == 59 && Offset(fs, 15) == 63 && Offset(fs, 16) == 68;
    assert Offset(fs, 17) == 69 && Offset(fs, 18) == 74 && Offset(fs, 19) == 75;
    FirstFrom(fs, 2, 3, 4, 5, 6, 9, 12);
    OtherFrom(fs, 2, 15, 8, 14, 17, 11, 19);
  }

  lemma Start1(fs: seq<Field>)
    requires fs == Mode1()
    ensures Offset(fs, 2) == 3 && Offset(fs, 5) == 13 && Offset(fs, 8) == 22
  {
    assert Offset(fs, 1) == 1 && Offset(fs, 2) == 3 && Offset(fs, 3) == 10 && Offset(fs, 4) == 12;
    assert Offset(fs, 5) == 13 && Offset(fs, 6) == 20 && Offset(fs, 7) == 21 && Offset(fs, 8) == 22;
  }

  lemma Middle1(fs: seq<Field>)
    requires fs == Mode1()
    ensures Offset(fs, 2) == 3 && Offset(fs, 5) == 13 && Offset(fs, 9) == 23 && Offset(fs, 13) == 33
    ensures Offset(fs, 14) == 39 && Offset(fs, 15) == 43 && Offset(fs, 16) == 49 && Offset(fs, 17) == 53
  {
    Start1(fs);
    assert Offset(fs, 9) == 23 && Offset(fs, 10) == 30 && Offset(fs, 11) == 31 && Offset(fs, 12) == 32;
    assert Offset(fs, 13) == 33 && Offset(fs, 14) == 39 && Offset(fs, 15) == 43 && Offset(fs, 16) == 49;
    assert Offset(fs, 17) == 53;
  }

  lemma Whole1(fs: seq<Field>)
    requires fs == Mode1()
    ensures Offset(fs, 2) == 3 && Offset(fs, 5) == 13 && Offset(fs, 9) == 23 && Offset(fs, 13) == 33
    ensures Offset(fs, 14) == 39 && Offset(fs, 15) == 43 && Offset(fs, 16) == 49 && Offset(fs, 17) == 53
    ensures Offset(fs, 18) == 59 && Offset(fs, 19) == 63 && Offset(fs, 20) == 69 && Offset(fs, 21) == 75
  {
    Middle1(fs);
    assert Offset(fs, 18) == 59 && Offset(fs, 19) == 63 && Offset(fs, 20) == 69 && Offset(fs, 21) == 75;
  }

  lemma Low1(fs: seq<Field>)
    requires fs == Mode1()
    ensures FirstTwo(fs, 2) && OtherTwo(fs, 2)
  {
    Whole1(fs);
    FirstFrom(fs, 2, 2, 5, 9, 13, 15, 17);
    OtherFrom(fs, 2, 19, 14, 18, 20, 16, 21);
  }

  lemma Start2(fs: seq<Field>)
    requires fs == Mode2()
    ensures Offset(fs, 0) == 0 && Offset(fs, 1) == 10 && Offset(fs, 2) == 20 && Offset(fs, 3) == 30
    ensures Offset(fs, 5) == 36
  {
    assert Offset(fs, 1) == 10 && Offset(fs, 2) == 20 && Offset(fs, 3) == 30 && Offset(fs, 4) == 35;
    assert Offset(fs, 5) == 36;
  }

  lemma Middle2(fs: seq<Field>)
    requires fs == Mode2()
    ensures Offset(fs, 0) == 0 && Offset(fs, 1) == 10 && Offset(fs, 2) == 20 && Offset(fs, 3) == 30
    ensures Offset(fs, 5) == 36 && Offset(fs, 6) == 40 && Offset(fs, 9) == 46 && Offset(fs, 10) == 50
  {
    Start2(fs);
    assert Offset(fs, 6) == 40 && Offset(fs, 7) == 44 && Offset(fs, 8) == 45 && Offset(fs, 9) == 46;
    assert Offset(fs, 10) == 50;
  }

  lemma Low2(fs: seq<Field>)
    requires fs == Mode2()
    ensures FirstTwo(fs, 5) && OtherTwo(fs, 5)
  {
    Middle2(fs);
    assert Offset(fs, 11) == 54 && Offset(fs, 12) == 55 && Offset(fs, 13) == 56 && Offset(fs, 14) == 60;
    assert Offset(fs, 15) == 65 && Offset(fs, 16) == 66 && Offset(fs, 17) == 71 && Offset(fs, 18) == 72;
    FirstFrom(fs, 5, 0, 1, 2, 3, 6, 10);
    OtherFrom(fs, 5, 14, 5, 13, 16, 9, 18);
  }

  lemma Low3(fs: seq<Field>)
    requires fs == Mode3()
    ensures FirstTwo(fs, 5)
  {
    assert Offset(fs, 1) == 10 && Offset(fs, 2) == 20 && Offset(fs, 3) == 30 && Offset(fs, 4) == 40;
    assert Offset(fs, 5) == 50;
    FirstFrom(fs, 5, 0, 1, 2, 3, 4, 5);
  }

  lemma Start4(fs: seq<Field>)
    requires fs == Mode4()
    ensures Offset(fs, 0) == 0 && Offset(fs, 1) == 10 && Offset(fs, 2) == 20 && Offset(fs, 3) == 30
    ensures Offset(fs, 5) == 35
  {
    assert Offset(fs, 1) == 10 && Offset(fs, 2) == 20 && Offset(fs, 3) == 30 && Offset(fs, 4) == 34;
    assert Offset(fs, 5) == 35;
  }

  lemma Middle4(fs: seq<Field>)
    requires fs == Mode4()
    ensures Offset(fs, 0) == 0 && Offset(fs, 1) == 10 && Offset(fs, 2) == 20 && Offset(fs, 3) == 30
    ensures Offset(fs, 6) == 36 && Offset(fs, 7) == 40 && Offset(fs, 9) == 46 && Offset(fs, 10) == 50
  {
    Start4(fs);
    assert Offset(fs, 6) == 36 && Offset(fs, 7) == 40 && Offset(fs, 8) == 45 && Offset(fs, 9) == 46;
    assert Offset(fs, 10) == 50;
  }

  lemma Low4(fs: seq<Field>)
    requires fs == Mode4()
    ensures FirstTwo(fs, 5) && OtherTwo(fs, 5)
  {
    Middle4(fs);
    assert Offset(fs, 11) == 54 && Offset(fs, 12) == 55 && Offset(fs, 13) == 56 && Offset(fs, 14) == 60;
    assert Offset(fs, 15) == 64 && Offset(fs, 16) == 65 && Offset(fs, 17) == 66 && Offset(fs, 18) == 70;
    assert Offset(fs, 19) == 71 && Offset(fs, 20) == 72;
    FirstFrom(fs, 5, 0, 1, 2, 3, 7, 10);
    OtherFrom(fs, 5, 14, 6, 13, 17, 9, 20);
  }

  lemma Low5(fs: seq<Field>)
    requires fs == Mode5()
    ensures FirstTwo(fs, 5)
  {
    assert Offset(fs, 1) == 10 && Offset(fs, 2) == 20 && Offset(fs, 3) == 30 && Offset(fs, 4) == 39;
    assert Offset(fs, 5) == 40 && Offset(fs, 6) == 49 && Offset(fs, 7) == 50;
    FirstFrom(fs, 5, 0, 1, 2, 3, 5, 7);
  }

  lemma Start6(fs: seq<Field>)
    requires fs == Mode6()
    ensures Offset(fs, 0) == 0 && Offset(fs, 1) == 10 && Offset(fs, 2) == 20 && Offset(fs, 3) == 30
    ensures Offset(fs, 5) == 35
  {
    assert Offset(fs, 1) == 10 && Offset(fs, 2) == 20 && Offset(fs, 3) == 30 && Offset(fs, 4) == 34;
    assert Offset(fs, 5) == 35;
  }

  lemma Middle6(fs: seq<Field>)
    requires fs == Mode6()
    ensures Offset(fs, 0) == 0 && Offset(fs, 1) == 10 && Offset(fs, 2) == 20 && Offset(fs, 3) == 30
    ensures Offset(fs, 6) == 36 && Offset(fs, 7) == 40 && Offset(fs, 10) == 46 && Offset(fs, 11) == 50
  {
    Start6(fs);
    assert Offset(fs, 6) == 36 && Offset(fs, 7) == 40 && Offset(fs, 8) == 44 && Offset(fs, 9) == 45;
    assert Offset(fs, 10) == 46 && Offset(fs, 11) == 50;
  }

  lemma Low6(fs: seq<Field>)
    requires fs == Mode6()
    ensures FirstTwo(fs, 5) && OtherTwo(fs, 5)
  {
    Middle6(fs);
    assert Offset(fs, 12) == 55 && Offset(fs, 13) == 56 && Offset(fs, 14) == 60 && Offset(fs, 15) == 64;
    assert Offset(fs, 16) == 65 && Offset(fs, 17) == 66 && Offset(fs, 18) == 70 && Offset(fs, 19) == 71;
    assert Offset(fs, 20) == 72;
    FirstFrom(fs, 5, 0, 1, 2, 3, 7, 11);
    OtherFrom(fs, 5, 14, 6, 13, 17, 10, 20);
  }

  lemma Low7(fs: seq<Field>)
    requires fs == Mode7()
    ensures FirstTwo(fs, 5)
  {
    assert Offset(fs, 1) == 10 && Offset(fs, 2) == 20 && Offset(fs, 3) == 30 && Offset(fs, 4) == 38;
    assert Offset(fs, 5) == 40 && Offset(fs, 6) == 48 && Offset(fs, 7) == 50;
    FirstFrom(fs, 5, 0, 1, 2, 3, 5, 7);
  }

  lemma Start8(fs: seq<Field>)
    requires fs == Mode8()
    ensures Offset(fs, 0) == 0 && Offset(fs, 2) == 10 && Offset(fs, 4) == 20 && Offset(fs, 6) == 30
  {
    assert Offset(fs, 1) == 9 && Offset(fs, 2) == 10 && Offset(fs, 3) == 19 && Offset(fs, 4) == 20;
    assert Offset(fs, 5) == 29 && Offset(fs, 6) == 30;
  }

  lemma Middle8(fs: seq<Field>)
    requires fs == Mode8()
    ensures Offset(fs, 0) == 0 && Offset(fs, 2) == 10 && Offset(fs, 4) == 20 && Offset(fs, 6) == 30
    ensures Offset(fs, 8) == 36 && Offset(fs, 9) == 40 && Offset(fs, 11) == 46 && Offset(fs, 12) == 50
  {
    Start8(fs);
    assert Offset(fs, 7) == 35 && Offset(fs, 8) == 36 && Offset(fs, 9) == 40 && Offset(fs, 10) == 45;
    assert Offset(fs, 11) == 46 && Offset(fs, 12) == 50;
  }

  lemma Low8(fs: seq<Field>)
    requires fs == Mode8()
    ensures FirstTwo(fs, 5) && OtherTwo(fs, 5)
  {
    Middle8(fs);
    assert Offset(fs, 13) == 55 && Offset(fs, 14) == 56 && Offset(fs, 15) == 60 && Offset(fs, 16) == 65;
    assert Offset(fs, 17) == 66 && Offset(fs, 18) == 71 && Offset(fs, 19) == 72;
    FirstFrom(fs, 5, 0, 2, 4, 6, 9, 12);
    OtherFrom(fs, 5, 15, 8, 14, 17, 11, 19);
  }

  lemma Low9(fs: seq<Field>)
    requires fs == Mode9()
    ensures FirstTwo(fs, 5)
  {
    assert Offset(fs, 1) == 10 && Offset(fs, 2) == 20 && Offset(fs, 3) == 30 && Offset(fs, 4) == 34;
    assert Offset(fs, 5) == 40 && Offset(fs, 6) == 44 && Offset(fs, 7) == 50;
    FirstFrom(fs, 5, 0, 1, 2, 3, 5, 7);
  }

  lemma Start10(fs: seq<Field>)
    requires fs == Mode10()
    ensures Offset(fs, 0) == 0 && Offset(fs, 3) == 10 && Offset(fs, 6) == 20 && Offset(fs, 7) == 28
  {
    assert Offset(fs, 1) == 8 && Offset(fs, 2) == 9 && Offset(fs, 3) == 10 && Offset(fs, 4) == 18;
    assert Offset(fs, 5) == 19 && Offset(fs, 6) == 20 && Offset(fs, 7) == 28;
  }

  lemma Middle10(fs: seq<Field>)
    requires fs == Mode10()
    ensures Offset(fs, 0) == 0 && Offset(fs, 3) == 10 && Offset(fs, 6) == 20 && Offset(fs, 9) == 30
    ensures Offset(fs, 10) == 36 && Offset(fs, 11) == 40 && Offset(fs, 13) == 46 && Offset(fs, 14) == 50
  {
    Start10(fs);
    assert Offset(fs, 8) == 29 && Offset(fs, 9) == 30 && Offset(fs, 10) == 36 && Offset(fs, 11) == 40;
    assert Offset(fs, 12) == 45 && Offset(fs, 13) == 46 && Offset(fs, 14) == 50;
  }

  lemma Low10(fs: seq<Field>)
    requires fs == Mode10()
    ensures FirstTwo(fs, 5) && OtherTwo(fs, 5)
  {
    Middle10(fs);
    assert Offset(fs, 15) == 55 && Offset(fs, 16) == 56 && Offset(fs, 17) == 60 && Offset(fs, 18) == 66;
    assert Offset(fs, 19) == 72;
    FirstFrom(fs, 5, 0, 3, 6, 9, 11, 14);
    OtherFrom(fs, 5, 17, 10, 16, 18, 13, 19);
  }

  lemma Start11(fs: seq<Field>)
    requires fs == Mode11()
    ensures Offset(fs, 0) == 0 && Offset(fs, 3) == 10 && Offset(fs, 6) == 20 && Offset(fs, 7) == 28
  {
    assert Offset(fs, 1) == 8 && Offset(fs, 2) == 9 && Offset(fs, 3) == 10 && Offset(fs, 4) == 18;
    assert Offset(fs, 5) == 19 && Offset(fs, 6) == 20 && Offset(fs, 7) == 28;
  }

  lemma Middle11(fs: seq<Field>)
    requires fs == Mode11()
    ensures Offset(fs, 0) == 0 && Offset(fs, 3) == 10 && Offset(fs, 6) == 20 && Offset(fs, 9) == 30
    ensures Offset(fs, 11) == 36 && Offset(fs, 12) == 40 && Offset(fs, 13) == 46 && Offset(fs, 14) == 50
  {
    Start11(fs);
    assert Offset(fs, 8) == 29 && Offset(fs, 9) == 30 && Offset(fs, 10) == 35 && Offset(fs, 11) == 36;
    assert Offset(fs, 12) == 40 && Offset(fs, 13) == 46 && Offset(fs, 14) == 50;
  }

  lemma Whole11(fs: seq<Field>)
    requires fs == Mode11()
    ensures Offset(fs, 0) == 0 && Offset(fs, 3) == 10 && Offset(fs, 6) == 20 && Offset(fs, 9) == 30
    ensures Offset(fs, 11) == 36 && Offset(fs, 12) == 40 && Offset(fs, 13) == 46 && Offset(fs, 14) == 50
    ensures Offset(fs, 16) == 56 && Offset(fs, 17) == 60 && Offset(fs, 19) == 66 && Offset(fs, 21) == 72
  {
    Middle11(fs);
    assert Offset(fs, 15) == 55 && Offset(fs, 16) == 56 && Offset(fs, 17) == 60 && Offset(fs, 18) == 65;
    assert Offset(fs, 19) == 66 && Offset(fs, 20) == 71 && Offset(fs, 21) == 72;
  }

  lemma Low11(fs: seq<Field>)
    requires fs == Mode11()
    ensures FirstTwo(fs, 5) && OtherTwo(fs, 5)
  {
    Whole11(fs);
    FirstFrom(fs, 5, 0, 3, 6, 9, 12, 14);
    OtherFrom(fs, 5, 17, 11, 16, 19, 13, 21);
  }

  lemma Start12(fs: seq<Field>)
    requires fs == Mode12()
    ensures Offset(fs, 0) == 0 && Offset(fs, 3) == 10 && Offset(fs, 6) == 20 && Offset(fs, 7) == 28
  {
    assert Offset(fs, 1) == 8 && Offset(fs, 2) == 9 && Offset(fs, 3) == 10 && Offset(fs, 4) == 18;
    assert Offset(fs, 5) == 19 && Offset(fs, 6) == 20 && Offset(fs, 7) == 28;
  }

  lemma Middle12(fs: seq<Field>)
    requires fs == Mode12()
    ensures Offset(fs, 0) == 0 && Offset(fs, 3) == 10 && Offset(fs, 6) == 20 && Offset(fs, 9) == 30
    ensures Offset(fs, 11) == 36 && Offset(fs, 12) == 40 && Offset(fs, 14) == 46 && Offset(fs, 15) == 50
  {
    Start12(fs);
    assert Offset(fs, 8) == 29 && Offset(fs, 9) == 30 && Offset(fs, 10) == 35 && Offset(fs, 11) == 36;
    assert Offset(fs, 12) == 40 && Offset(fs, 13) == 45 && Offset(fs, 14) == 46 && Offset(fs, 15) == 50;
  }

  lemma Whole12(fs: seq<Field>)
    requires fs == Mode12()
    ensures Offset(fs, 0) == 0 && Offset(fs, 3) == 10 && Offset(fs, 6) == 20 && Offset(fs, 9) == 30
    ensures Offset(fs, 11) == 36 && Offset(fs, 12) == 40 && Offset(fs, 14) == 46 && Offset(fs, 15) == 50
    ensures Offset(fs, 16) == 56 && Offset(fs, 17) == 60 && Offset(fs, 19) == 66 && Offset(fs, 21) == 72
  {
    Middle12(fs);
    assert Offset(fs, 16) == 56 && Offset(fs, 17) == 60 && Offset(fs, 18) == 65 && Offset(fs, 19) == 66;
    assert Offset(fs, 20) == 71 && Offset(fs, 21) == 72;
  }

  lemma Low12(fs: seq<Field>)
    requires fs == Mode12()
    ensures FirstTwo(fs, 5) && OtherTwo(fs, 5)
  {
    Whole12(fs);
    FirstFrom(fs, 5, 0, 3, 6, 9, 12, 15);
    OtherFrom(fs, 5, 17, 11, 16, 19, 14, 21);
  }

  lemma Start13(fs: seq<Field>)
    requires fs == Mode13()
    ensures Offset(fs, 0) == 0 && Offset(fs, 5) == 10 && Offset(fs, 9) == 19
  {
    assert Offset(fs, 1) == 6 && Offset(fs, 2) == 7 && Offset(fs, 3) == 8 && Offset(fs, 4) == 9;
    assert Offset(fs, 5) == 10 && Offset(fs, 6) == 16 && Offset(fs, 7) == 17 && Offset(fs, 8) == 18;
    assert Offset(fs, 9) == 19;
  }

  lemma Middle13(fs: seq<Field>)
    requires fs == Mode13()
    ensures Offset(fs, 0) == 0 && Offset(fs, 5) == 10 && Offset(fs, 10) == 20 && Offset(fs, 15) == 30
    ensures Offset(fs, 16) == 36 && Offset(fs, 17) == 40 && Offset(fs, 18) == 46 && Offset(fs, 19) == 50
  {
    Start13(fs);
    assert Offset(fs, 10) == 20 && Offset(fs, 11) == 26 && Offset(fs, 12) == 27 && Offset(fs, 13) == 28;
    assert Offset(fs, 14) == 29 && Offset(fs, 15) == 30 && Offset(fs, 16) == 36 && Offset(fs, 17) == 40;
    assert Offset(fs, 18) == 46 && Offset(fs, 19) == 50;
  }

  lemma Whole13(fs: seq<Field>)
    requires fs == Mode13()
    ensures Offset(fs, 0) == 0 && Offset(fs, 5) == 10 && Offset(fs, 10) == 20 && Offset(fs, 15) == 30
    ensures Offset(fs, 16) == 36 && Offset(fs, 17) == 40 && Offset(fs, 18) == 46 && Offset(fs, 19) == 50
    ensures Offset(fs, 20) == 56 && Offset(fs, 21) == 60 && Offset(fs, 22) == 66 && Offset(fs, 23) == 72
  {
    Middle13(fs);
    assert Offset(fs, 20) == 56 && Offset(fs, 21) == 60 && Offset(fs, 22) == 66 && Offset(fs, 23) == 72;
  }

  lemma Low13(fs: seq<Field>)
    requires fs == Mode13()
    ensures FirstTwo(fs, 5) && OtherTwo(fs, 5)
  {
    Whole13(fs);
    FirstFrom(fs, 5, 0, 5, 10, 15, 17, 19);
    OtherFrom(fs, 5, 21, 16, 20, 22, 18, 23);
  }

  lemma LowFrom0(m: nat, fs: seq<Field>)
    requires 0 <= m <= 4 && fs == FieldsOf(m)
    ensures FirstTwo(fs, ModeWidth(m)) && (ModeOf(m).partitions == 2 ==> OtherTwo(fs, ModeWidth(m)))
  {
    match m
    case 0 => Low0(fs);
    case 1 => Low1(fs);
    case 2 => Low2(fs);
    case 3 => Low3(fs);
    case _ => Low4(fs);
  }

  lemma LowFrom5(m: nat, fs: seq<Field>)
    requires 5 <= m <= 9 && fs == FieldsOf(m)
    ensures FirstTwo(fs, ModeWidth(m)) && (ModeOf(m).partitions == 2 ==> OtherTwo(fs, ModeWidth(m)))
  {
    match m
    case 5 => Low5(fs);
    case 6 => Low6(fs);
    case 7 => Low7(fs);
    case 8 => Low8(fs);
    case _ => Low9(fs);
  }

  lemma LowFrom10(m: nat, fs: seq<Field>)
    requires 10 <= m <= 13 && fs == FieldsOf(m)
    ensures FirstTwo(fs, ModeWidth(m)) && (ModeOf(m).partitions == 2 ==> OtherTwo(fs, ModeWidth(m)))
  {
    match m
    case 10 => Low10(fs);
    case 11 => Low11(fs);
    case 12 => Low12(fs);
    case _ => Low13(fs);
  }

  // ----- all modes

  /** The channels whose low bits lie together: all but blue of the last endpoint. */
  predicate Together(partitions: nat, ep: nat, ch: Channel)
  {
    if partitions == 1 then ep < 2 else ep < 3 || (ep == 3 && ch != B) || (ep == PARTITION && ch == R)
  }

  lemma HeldTogether(fs: seq<Field>, w: nat, partitions: nat, ep: nat, ch: Channel)
    requires FirstTwo(fs, w) && (partitions == 2 ==> OtherTwo(fs, w)) && 1 <= partitions <= 2
    requires Together(partitions, ep, ch)
    ensures HasLow(fs, w, ep, ch)
  {
  }

  lemma LowFields(m: nat, fs: seq<Field>)
    requires m < 14 && fs == FieldsOf(m)
    ensures FirstTwo(fs, ModeWidth(m)) && (ModeOf(m).partitions == 2 ==> OtherTwo(fs, ModeWidth(m)))
  {
    if m < 5 {
      LowFrom0(m, fs);
    } else if m < 10 {
      LowFrom5(m, fs);
    } else {
      LowFrom10(m, fs);
    }
  }

  lemma OneOrTwo(m: nat)
    requires m < 14
    ensures 1 <= ModeOf(m).partitions <= 2
  {
  }

  lemma LowHeld(m: nat, fs: seq<Field>, ep: nat, ch: Channel)
    requires m < 14 && fs == FieldsOf(m) && Together(ModeOf(m).partitions, ep, ch)
    ensures HasLow(fs, ModeWidth(m), ep, ch)
  {
    OneOrTwo(m);
    LowFields(m, fs);
    HeldTogether(fs, ModeWidth(m), ModeOf(m).partitions, ep, ch);
  }

  lemma {:induction false} OnlyField(fs: seq<Field>, i: nat, n: nat, ep: nat, ch: Channel, b: nat)
    requires i < n <= |fs| && Covers(fs[i], ep, ch, b)
    ensures Count(fs, n, ep, ch, b) >= 1
    ensures Count(fs, n, ep, ch, b) == 1 ==> Position(fs, n, ep, ch, b) == Offset(fs, i) + Place(fs[i], b)
    decreases n
  {
    if i < n - 1 {
      OnlyField(fs, i, n - 1, ep, ch, b);
    }
  }

  lemma LowPosition(fs: seq<Field>, m: nat, ep: nat, ch: Channel, b: nat)
    requires m < 14 && fs == FieldsOf(m) && HasLow(fs, ModeWidth(m), ep, ch) && b < 4
    ensures ModeWidth(m) + Position(fs, |fs|, ep, ch, b) == LowStart(ep, ch) + b && b < StoredBits(m, ep, ch)
  {
    var i, at :| LowAt(fs, i, ep, ch, at) && ModeWidth(m) + at == LowStart(ep, ch);
    OnlyField(fs, i, |fs|, ep, ch, b);
    StoredCount(fs, m, ep, ch, b);
  }

  lemma RawIs(bits: seq<bool>, m: nat, ep: nat, ch: Channel, fs: seq<Field>, rest: seq<bool>, n: nat)
    requires |bits| == 128 && m < 14 && fs == FieldsOf(m) && rest == Rest(bits, ModeWidth(m))
    requires n == |fs| && Offset(fs, n) <= 128
    ensures Raw(bits, m, ep, ch) == ChannelValue(rest, fs, n, ep, ch)
  {
  }

  lemma RestAt(bits: seq<bool>, w: nat, i: nat)
    requires |bits| == 128 && w + i < 128
    ensures Rest(bits, w)[i] == bits[w + i]
  {
  }

  lemma RestBit(bits: seq<bool>, m: nat, ep: nat, ch: Channel, b: nat, fs: seq<Field>, at: nat)
    requires |bits| == 128 && m < 14 && b < StoredBits(m, ep, ch) && fs == FieldsOf(m)
    requires ModeWidth(m) + Position(fs, |fs|, ep, ch, b) == at < 128
    ensures BitAt(Raw(bits, m, ep, ch), b) == bits[at]
  {
    var rest := Rest(bits, ModeWidth(m));
    HeaderFits(m);
    RawIs(bits, m, ep, ch, fs, rest, |fs|);
    HeaderBit(rest, fs, m, ep, ch, b);
    RestAt(bits, ModeWidth(m), Position(fs, |fs|, ep, ch, b));
  }

  /** In every mode the low four bits of those channels are the same four bits of the block. */
  lemma LowBitsAt(bits: seq<bool>, m: nat, ep: nat, ch: Channel, b: nat, fs: seq<Field>)
    requires |bits| == 128 && m < 14 && Together(ModeOf(m).partitions, ep, ch) && b < 4 && fs == FieldsOf(m)
    ensures LowStart(ep, ch) + b < 128 && BitAt(Raw(bits, m, ep, ch), b) == bits[LowStart(ep, ch) + b]
  {
    LowHeld(m, fs, ep, ch);
    LowPosition(fs, m, ep, ch, b);
    RestBit(bits, m, ep, ch, b, fs, LowStart(ep, ch) + b);
  }
}
