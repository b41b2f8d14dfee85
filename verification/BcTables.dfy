/** The partition and anchor tables BC6H and BC7 share: which subset each of the sixteen texels of a
    block belongs to, and which texel is the anchor of each subset. */
module BcTables {

  type Two = x: nat | x < 2

  type Three = x: nat | x < 3

  /** Anchor of subset 1 when there are two subsets. */
  function Anchor2(p: nat): (a: nat)
    ensures 0 < a < 16
  {
    match p
    case 0 => 15 case 1 => 15 case 2 => 15 case 3 => 15 case 4 => 15 case 5 => 15 case 6 => 15 case 7 => 15
    case 8 => 15 case 9 => 15 case 10 => 15 case 11 => 15 case 12 => 15 case 13 => 15 case 14 => 15 case 15 => 15
    case 16 => 15 case 17 => 2 case 18 => 8 case 19 => 2 case 20 => 2 case 21 => 8 case 22 => 8 case 23 => 15
    case 24 => 2 case 25 => 8 case 26 => 2 case 27 => 2 case 28 => 8 case 29 => 8 case 30 => 2 case 31 => 2
    case 32 => 15 case 33 => 15 case 34 => 6 case 35 => 8 case 36 => 2 case 37 => 8 case 38 => 15 case 39 => 15
    case 40 => 2 case 41 => 8 case 42 => 2 case 43 => 2 case 44 => 2 case 45 => 15 case 46 => 15 case 47 => 6
    case 48 => 6 case 49 => 2 case 50 => 6 case 51 => 8 case 52 => 15 case 53 => 15 case 54 => 2 case 55 => 2
    case 56 => 15 case 57 => 15 case 58 => 15 case 59 => 15 case 60 => 15 case 61 => 2 case 62 => 2 case _ => 15
  }

  /** Anchors of subsets 1 and 2 when there are three. */
  function Anchor3a(p: nat): (a: nat)
    ensures 0 < a < 16
  {
    match p
    case 0 => 3 case 1 => 3 case 2 => 15 case 3 => 15 case 4 => 8 case 5 => 3 case 6 => 15 case 7 => 15
    case 8 => 8 case 9 => 8 case 10 => 6 case 11 => 6 case 12 => 6 case 13 => 5 case 14 => 3 case 15 => 3
    case 16 => 3 case 17 => 3 case 18 => 8 case 19 => 15 case 20 => 3 case 21 => 3 case 22 => 6 case 23 => 10
    case 24 => 5 case 25 => 8 case 26 => 8 case 27 => 6 case 28 => 8 case 29 => 5 case 30 => 15 case 31 => 15
    case 32 => 8 case 33 => 15 case 34 => 3 case 35 => 5 case 36 => 6 case 37 => 10 case 38 => 8 case 39 => 15
    case 40 => 15 case 41 => 3 case 42 => 15 case 43 => 5 case 44 => 15 case 45 => 15 case 46 => 15 case 47 => 15
    case 48 => 3 case 49 => 15 case 50 => 5 case 51 => 5 case 52 => 5 case 53 => 8 case 54 => 5 case 55 => 10
    case 56 => 5 case 57 => 10 case 58 => 8 case 59 => 13 case 60 => 15 case 61 => 12 case 62 => 3 case _ => 3
  }

  function Anchor3b(p: nat): (a: nat)
    ensures 0 < a < 16
  {
    match p
    case 0 => 15 case 1 => 8 case 2 => 8 case 3 => 3 case 4 => 15 case 5 => 15 case 6 => 3 case 7 => 8
    case 8 => 15 case 9 => 15 case 10 => 15 case 11 => 15 case 12 => 15 case 13 => 15 case 14 => 15 case 15 => 8
    case 16 => 15 case 17 => 8 case 18 => 15 case 19 => 3 case 20 => 15 case 21 => 8 case 22 => 15 case 23 => 8
    case 24 => 3 case 25 => 15 case 26 => 6 case 27 => 10 case 28 => 15 case 29 => 15 case 30 => 10 case 31 => 8
    case 32 => 15 case 33 => 3 case 34 => 15 case 35 => 10 case 36 => 10 case 37 => 8 case 38 => 9 case 39 => 10
    case 40 => 6 case 41 => 15 case 42 => 8 case 43 => 15 case 44 => 3 case 45 => 6 case 46 => 6 case 47 => 8
    case 48 => 15 case 49 => 3 case 50 => 15 case 51 => 15 case 52 => 15 case 53 => 15 case 54 => 15 case 55 => 15
    case 56 => 15 case 57 => 15 case 58 => 15 case 59 => 15 case 60 => 3 case 61 => 15 case 62 => 15 case _ => 8
  }

  function Rows2_0(p: nat): (r: seq<Two>)
    requires 0 <= p < 8
    ensures |r| == 16 && r[0] == 0 && r[Anchor2(p)] == 1
  {
    match p
    case 0 => [0, 0, 1, 1, 0, 0, 1, 1, 0, 0, 1, 1, 0, 0, 1, 1]
    case 1 => [0, 0, 0, 1, 0, 0, 0, 1, 0, 0, 0, 1, 0, 0, 0, 1]
    case 2 => [0, 1, 1, 1, 0, 1, 1, 1, 0, 1, 1, 1, 0, 1, 1, 1]
    case 3 => [0, 0, 0, 1, 0, 0, 1, 1, 0, 0, 1, 1, 0, 1, 1, 1]
    case 4 => [0, 0, 0, 0, 0, 0, 0, 1, 0, 0, 0, 1, 0, 0, 1, 1]
    case 5 => [0, 0, 1, 1, 0, 1, 1, 1, 0, 1, 1, 1, 1, 1, 1, 1]
    case 6 => [0, 0, 0, 1, 0, 0, 1, 1, 0, 1, 1, 1, 1, 1, 1, 1]
    case _ => [0, 0, 0, 0, 0, 0, 0, 1, 0, 0, 1, 1, 0, 1, 1, 1]
  }

  function Rows2_1(p: nat): (r: seq<Two>)
    requires 8 <= p < 16
    ensures |r| == 16 && r[0] == 0 && r[Anchor2(p)] == 1
  {
    match p
    case 8 => [0, 0, 0, 0, 0, 0, 0, 0, 0, 0, 0, 1, 0, 0, 1, 1]
    case 9 => [0, 0, 1, 1, 0, 1, 1, 1, 1, 1, 1, 1, 1, 1, 1, 1]
    case 10 => [0, 0, 0, 0, 0, 0, 0, 1, 0, 1, 1, 1, 1, 1, 1, 1]
    case 11 => [0, 0, 0, 0, 0, 0, 0, 0, 0, 0, 0, 1, 0, 1, 1, 1]
    case 12 => [0, 0, 0, 1, 0, 1, 1, 1, 1, 1, 1, 1, 1, 1, 1, 1]
    case 13 => [0, 0, 0, 0, 0, 0, 0, 0, 1, 1, 1, 1, 1, 1, 1, 1]
    case 14 => [0, 0, 0, 0, 1, 1, 1, 1, 1, 1, 1, 1, 1, 1, 1, 1]
    case _ => [0, 0, 0, 0, 0, 0, 0, 0, 0, 0, 0, 0, 1, 1, 1, 1]
  }

  function Rows2_2(p: nat): (r: seq<Two>)
    requires 16 <= p < 24
    ensures |r| == 16 && r[0] == 0 && r[Anchor2(p)] == 1
  {
    match p
    case 16 => [0, 0, 0, 0, 1, 0, 0, 0, 1, 1, 1, 0, 1, 1, 1, 1]
    case 17 => [0, 1, 1, 1, 0, 0, 0, 1, 0, 0, 0, 0, 0, 0, 0, 0]
    case 18 => [0, 0, 0, 0, 0, 0, 0, 0, 1, 0, 0, 0, 1, 1, 1, 0]
    case 19 => [0, 1, 1, 1, 0, 0, 1, 1, 0, 0, 0, 1, 0, 0, 0, 0]
    case 20 => [0, 0, 1, 1, 0, 0, 0, 1, 0, 0, 0, 0, 0, 0, 0, 0]
    case 21 => [0, 0, 0, 0, 1, 0, 0, 0, 1, 1, 0, 0, 1, 1, 1, 0]
    case 22 => [0, 0, 0, 0, 0, 0, 0, 0, 1, 0, 0, 0, 1, 1, 0, 0]
    case _ => [0, 1, 1, 1, 0, 0, 1, 1, 0, 0, 1, 1, 0, 0, 0, 1]
  }

  function Rows2_3(p: nat): (r: seq<Two>)
    requires 24 <= p < 32
    ensures |r| == 16 && r[0] == 0 && r[Anchor2(p)] == 1
  {
    match p
    case 24 => [0, 0, 1, 1, 0, 0, 0, 1, 0, 0, 0, 1, 0, 0, 0, 0]
    case 25 => [0, 0, 0, 0, 1, 0, 0, 0, 1, 0, 0, 0, 1, 1, 0, 0]
    case 26 => [0, 1, 1, 0, 0, 1, 1, 0, 0, 1, 1, 0, 0, 1, 1, 0]
    case 27 => [0, 0, 1, 1, 0, 1, 1, 0, 0, 1, 1, 0, 1, 1, 0, 0]
    case 28 => [0, 0, 0, 1, 0, 1, 1, 1, 1, 1, 1, 0, 1, 0, 0, 0]
    case 29 => [0, 0, 0, 0, 1, 1, 1, 1, 1, 1, 1, 1, 0, 0, 0, 0]
    case 30 => [0, 1, 1, 1, 0, 0, 0, 1, 1, 0, 0, 0, 1, 1, 1, 0]
    case _ => [0, 0, 1, 1, 1, 0, 0, 1, 1, 0, 0, 1, 1, 1, 0, 0]
  }

  function Rows2_4(p: nat): (r: seq<Two>)
    requires 32 <= p < 40
    ensures |r| == 16 && r[0] == 0 && r[Anchor2(p)] == 1
  {
    match p
    case 32 => [0, 1, 0, 1, 0, 1, 0, 1, 0, 1, 0, 1, 0, 1, 0, 1]
    case 33 => [0, 0, 0, 0, 1, 1, 1, 1, 0, 0, 0, 0, 1, 1, 1, 1]
    case 34 => [0, 1, 0, 1, 1, 0, 1, 0, 0, 1, 0, 1, 1, 0, 1, 0]
    case 35 => [0, 0, 1, 1, 0, 0, 1, 1, 1, 1, 0, 0, 1, 1, 0, 0]
    case 36 => [0, 0, 1, 1, 1, 1, 0, 0, 0, 0, 1, 1, 1, 1, 0, 0]
    case 37 => [0, 1, 0, 1, 0, 1, 0, 1, 1, 0, 1, 0, 1, 0, 1, 0]
    case 38 => [0, 1, 1, 0, 1, 0, 0, 1, 0, 1, 1, 0, 1, 0, 0, 1]
    case _ => [0, 1, 0, 1, 1, 0, 1, 0, 1, 0, 1, 0, 0, 1, 0, 1]
  }

  function Rows2_5(p: nat): (r: seq<Two>)
    requires 40 <= p < 48
    ensures |r| == 16 && r[0] == 0 && r[Anchor2(p)] == 1
  {
    match p
    case 40 => [0, 1, 1, 1, 0, 0, 1, 1, 1, 1, 0, 0, 1, 1, 1, 0]
    case 41 => [0, 0, 0, 1, 0, 0, 1, 1, 1, 1, 0, 0, 1, 0, 0, 0]
    case 42 => [0, 0, 1, 1, 0, 0, 1, 0, 0, 1, 0, 0, 1, 1, 0, 0]
    case 43 => [0, 0, 1, 1, 1, 0, 1, 1, 1, 1, 0, 1, 1, 1, 0, 0]
    case 44 => [0, 1, 1, 0, 1, 0, 0, 1, 1, 0, 0, 1, 0, 1, 1, 0]
    case 45 => [0, 0, 1, 1, 1, 1, 0, 0, 1, 1, 0, 0, 0, 0, 1, 1]
    case 46 => [0, 1, 1, 0, 0, 1, 1, 0, 1, 0, 0, 1, 1, 0, 0, 1]
    case _ => [0, 0, 0, 0, 0, 1, 1, 0, 0, 1, 1, 0, 0, 0, 0, 0]
  }

  function Rows2_6(p: nat): (r: seq<Two>)
    requires 48 <= p < 56
    ensures |r| == 16 && r[0] == 0 && r[Anchor2(p)] == 1
  {
    match p
    case 48 => [0, 1, 0, 0, 1, 1, 1, 0, 0, 1, 0, 0, 0, 0, 0, 0]
    case 49 => [0, 0, 1, 0, 0, 1, 1, 1, 0, 0, 1, 0, 0, 0, 0, 0]
    case 50 => [0, 0, 0, 0, 0, 0, 1, 0, 0, 1, 1, 1, 0, 0, 1, 0]
    case 51 => [0, 0, 0, 0, 0, 1, 0, 0, 1, 1, 1, 0, 0, 1, 0, 0]
    case 52 => [0, 1, 1, 0, 1, 1, 0, 0, 1, 0, 0, 1, 0, 0, 1, 1]
    case 53 => [0, 0, 1, 1, 0, 1, 1, 0, 1, 1, 0, 0, 1, 0, 0, 1]
    case 54 => [0, 1, 1, 0, 0, 0, 1, 1, 1, 0, 0, 1, 1, 1, 0, 0]
    case _ => [0, 0, 1, 1, 1, 0, 0, 1, 1, 1, 0, 0, 0, 1, 1, 0]
  }

  function Rows2_7(p: nat): (r: seq<Two>)
    requires 56 <= p < 64
    ensures |r| == 16 && r[0] == 0 && r[Anchor2(p)] == 1
  {
    match p
    case 56 => [0, 1, 1, 0, 1, 1, 0, 0, 1, 1, 0, 0, 1, 0, 0, 1]
    case 57 => [0, 1, 1, 0, 0, 0, 1, 1, 0, 0, 1, 1, 1, 0, 0, 1]
    case 58 => [0, 1, 1, 1, 1, 1, 1, 0, 1, 0, 0, 0, 0, 0, 0, 1]
    case 59 => [0, 0, 0, 1, 1, 0, 0, 0, 1, 1, 1, 0, 0, 1, 1, 1]
    case 60 => [0, 0, 0, 0, 1, 1, 1, 1, 0, 0, 1, 1, 0, 0, 1, 1]
    case 61 => [0, 0, 1, 1, 0, 0, 1, 1, 1, 1, 1, 1, 0, 0, 0, 0]
    case 62 => [0, 0, 1, 0, 0, 0, 1, 0, 1, 1, 1, 0, 1, 1, 1, 0]
    case _ => [0, 1, 0, 0, 0, 1, 0, 0, 0, 1, 1, 1, 0, 1, 1, 1]
  }

  function Rows3_0(p: nat): (r: seq<Three>)
    requires 0 <= p < 4
    ensures |r| == 16 && r[0] == 0 && r[Anchor3a(p)] == 1 && r[Anchor3b(p)] == 2
  {
    match p
    case 0 => [0, 0, 1, 1, 0, 0, 1, 1, 0, 2, 2, 1, 2, 2, 2, 2]
    case 1 => [0, 0, 0, 1, 0, 0, 1, 1, 2, 2, 1, 1, 2, 2, 2, 1]
    case 2 => [0, 0, 0, 0, 2, 0, 0, 1, 2, 2, 1, 1, 2, 2, 1, 1]
    case _ => [0, 2, 2, 2, 0, 0, 2, 2, 0, 0, 1, 1, 0, 1, 1, 1]
  }

  function Rows3_1(p: nat): (r: seq<Three>)
    requires 4 <= p < 8
    ensures |r| == 16 && r[0] == 0 && r[Anchor3a(p)] == 1 && r[Anchor3b(p)] == 2
  {
    match p
    case 4 => [0, 0, 0, 0, 0, 0, 0, 0, 1, 1, 2, 2, 1, 1, 2, 2]
    case 5 => [0, 0, 1, 1, 0, 0, 1, 1, 0, 0, 2, 2, 0, 0, 2, 2]
    case 6 => [0, 0, 2, 2, 0, 0, 2, 2, 1, 1, 1, 1, 1, 1, 1, 1]
    case _ => [0, 0, 1, 1, 0, 0, 1, 1, 2, 2, 1, 1, 2, 2, 1, 1]
  }

  function Rows3_2(p: nat): (r: seq<Three>)
    requires 8 <= p < 12
    ensures |r| == 16 && r[0] == 0 && r[Anchor3a(p)] == 1 && r[Anchor3b(p)] == 2
  {
    match p
    case 8 => [0, 0, 0, 0, 0, 0, 0, 0, 1, 1, 1, 1, 2, 2, 2, 2]
    case 9 => [0, 0, 0, 0, 1, 1, 1, 1, 1, 1, 1, 1, 2, 2, 2, 2]
    case 10 => [0, 0, 0, 0, 1, 1, 1, 1, 2, 2, 2, 2, 2, 2, 2, 2]
    case _ => [0, 0, 1, 2, 0, 0, 1, 2, 0, 0, 1, 2, 0, 0, 1, 2]
  }

  function Rows3_3(p: nat): (r: seq<Three>)
    requires 12 <= p < 16
    ensures |r| == 16 && r[0] == 0 && r[Anchor3a(p)] == 1 && r[Anchor3b(p)] == 2
  {
    match p
    case 12 => [0, 1, 1, 2, 0, 1, 1, 2, 0, 1, 1, 2, 0, 1, 1, 2]
    case 13 => [0, 1, 2, 2, 0, 1, 2, 2, 0, 1, 2, 2, 0, 1, 2, 2]
    case 14 => [0, 0, 1, 1, 0, 1, 1, 2, 1, 1, 2, 2, 1, 2, 2, 2]
    case _ => [0, 0, 1, 1, 2, 0, 0, 1, 2, 2, 0, 0, 2, 2, 2, 0]
  }

  function Rows3_4(p: nat): (r: seq<Three>)
    requires 16 <= p < 20
    ensures |r| == 16 && r[0] == 0 && r[Anchor3a(p)] == 1 && r[Anchor3b(p)] == 2
  {
    match p
    case 16 => [0, 0, 0, 1, 0, 0, 1, 1, 0, 1, 1, 2, 1, 1, 2, 2]
    case 17 => [0, 1, 1, 1, 0, 0, 1, 1, 2, 0, 0, 1, 2, 2, 0, 0]
    case 18 => [0, 0, 0, 0, 1, 1, 2, 2, 1, 1, 2, 2, 1, 1, 2, 2]
    case _ => [0, 0, 2, 2, 0, 0, 2, 2, 0, 0, 2, 2, 1, 1, 1, 1]
  }

  function Rows3_5(p: nat): (r: seq<Three>)
    requires 20 <= p < 24
    ensures |r| == 16 && r[0] == 0 && r[Anchor3a(p)] == 1 && r[Anchor3b(p)] == 2
  {
    match p
    case 20 => [0, 1, 1, 1, 0, 1, 1, 1, 0, 2, 2, 2, 0, 2, 2, 2]
    case 21 => [0, 0, 0, 1, 0, 0, 0, 1, 2, 2, 2, 1, 2, 2, 2, 1]
    case 22 => [0, 0, 0, 0, 0, 0, 1, 1, 0, 1, 2, 2, 0, 1, 2, 2]
    case _ => [0, 0, 0, 0, 1, 1, 0, 0, 2, 2, 1, 0, 2, 2, 1, 0]
  }

  function Rows3_6(p: nat): (r: seq<Three>)
    requires 24 <= p < 28
    ensures |r| == 16 && r[0] == 0 && r[Anchor3a(p)] == 1 && r[Anchor3b(p)] == 2
  {
    match p
    case 24 => [0, 1, 2, 2, 0, 1, 2, 2, 0, 0, 1, 1, 0, 0, 0, 0]
    case 25 => [0, 0, 1, 2, 0, 0, 1, 2, 1, 1, 2, 2, 2, 2, 2, 2]
    case 26 => [0, 1, 1, 0, 1, 2, 2, 1, 1, 2, 2, 1, 0, 1, 1, 0]
    case _ => [0, 0, 0, 0, 0, 1, 1, 0, 1, 2, 2, 1, 1, 2, 2, 1]
  }

  function Rows3_7(p: nat): (r: seq<Three>)
    requires 28 <= p < 32
    ensures |r| == 16 && r[0] == 0 && r[Anchor3a(p)] == 1 && r[Anchor3b(p)] == 2
  {
    match p
    case 28 => [0, 0, 2, 2, 1, 1, 0, 2, 1, 1, 0, 2, 0, 0, 2, 2]
    case 29 => [0, 1, 1, 0, 0, 1, 1, 0, 2, 0, 0, 2, 2, 2, 2, 2]
    case 30 => [0, 0, 1, 1, 0, 1, 2, 2, 0, 1, 2, 2, 0, 0, 1, 1]
    case _ => [0, 0, 0, 0, 2, 0, 0, 0, 2, 2, 1, 1, 2, 2, 2, 1]
  }

  function Rows3_8(p: nat): (r: seq<Three>)
    requires 32 <= p < 36
    ensures |r| == 16 && r[0] == 0 && r[Anchor3a(p)] == 1 && r[Anchor3b(p)] == 2
  {
    match p
    case 32 => [0, 0, 0, 0, 0, 0, 0, 2, 1, 1, 2, 2, 1, 2, 2, 2]
    case 33 => [0, 2, 2, 2, 0, 0, 2, 2, 0, 0, 1, 2, 0, 0, 1, 1]
    case 34 => [0, 0, 1, 1, 0, 0, 1, 2, 0, 0, 2, 2, 0, 2, 2, 2]
    case _ => [0, 1, 2, 0, 0, 1, 2, 0, 0, 1, 2, 0, 0, 1, 2, 0]
  }

  function Rows3_9(p: nat): (r: seq<Three>)
    requires 36 <= p < 40
    ensures |r| == 16 && r[0] == 0 && r[Anchor3a(p)] == 1 && r[Anchor3b(p)] == 2
  {
    match p
    case 36 => [0, 0, 0, 0, 1, 1, 1, 1, 2, 2, 2, 2, 0, 0, 0, 0]
    case 37 => [0, 1, 2, 0, 1, 2, 0, 1, 2, 0, 1, 2, 0, 1, 2, 0]
    case 38 => [0, 1, 2, 0, 2, 0, 1, 2, 1, 2, 0, 1, 0, 1, 2, 0]
    case _ => [0, 0, 1, 1, 2, 2, 0, 0, 1, 1, 2, 2, 0, 0, 1, 1]
  }

  function Rows3_10(p: nat): (r: seq<Three>)
    requires 40 <= p < 44
    ensures |r| == 16 && r[0] == 0 && r[Anchor3a(p)] == 1 && r[Anchor3b(p)] == 2
  {
    match p
    case 40 => [0, 0, 1, 1, 1, 1, 2, 2, 2, 2, 0, 0, 0, 0, 1, 1]
    case 41 => [0, 1, 0, 1, 0, 1, 0, 1, 2, 2, 2, 2, 2, 2, 2, 2]
    case 42 => [0, 0, 0, 0, 0, 0, 0, 0, 2, 1, 2, 1, 2, 1, 2, 1]
    case _ => [0, 0, 2, 2, 1, 1, 2, 2, 0, 0, 2, 2, 1, 1, 2, 2]
  }

  function Rows3_11(p: nat): (r: seq<Three>)
    requires 44 <= p < 48
    ensures |r| == 16 && r[0] == 0 && r[Anchor3a(p)] == 1 && r[Anchor3b(p)] == 2
  {
    match p
    case 44 => [0, 0, 2, 2, 0, 0, 1, 1, 0, 0, 2, 2, 0, 0, 1, 1]
    case 45 => [0, 2, 2, 0, 1, 2, 2, 1, 0, 2, 2, 0, 1, 2, 2, 1]
    case 46 => [0, 1, 0, 1, 2, 2, 2, 2, 2, 2, 2, 2, 0, 1, 0, 1]
    case _ => [0, 0, 0, 0, 2, 1, 2, 1, 2, 1, 2, 1, 2, 1, 2, 1]
  }

  function Rows3_12(p: nat): (r: seq<Three>)
    requires 48 <= p < 52
    ensures |r| == 16 && r[0] == 0 && r[Anchor3a(p)] == 1 && r[Anchor3b(p)] == 2
  {
    match p
    case 48 => [0, 1, 0, 1, 0, 1, 0, 1, 0, 1, 0, 1, 2, 2, 2, 2]
    case 49 => [0, 2, 2, 2, 0, 1, 1, 1, 0, 2, 2, 2, 0, 1, 1, 1]
    case 50 => [0, 0, 0, 2, 1, 1, 1, 2, 0, 0, 0, 2, 1, 1, 1, 2]
    case _ => [0, 0, 0, 0, 2, 1, 1, 2, 2, 1, 1, 2, 2, 1, 1, 2]
  }

  function Rows3_13(p: nat): (r: seq<Three>)
    requires 52 <= p < 56
    ensures |r| == 16 && r[0] == 0 && r[Anchor3a(p)] == 1 && r[Anchor3b(p)] == 2
  {
    match p
    case 52 => [0, 2, 2, 2, 0, 1, 1, 1, 0, 1, 1, 1, 0, 2, 2, 2]
    case 53 => [0, 0, 0, 2, 1, 1, 1, 2, 1, 1, 1, 2, 0, 0, 0, 2]
    case 54 => [0, 1, 1, 0, 0, 1, 1, 0, 0, 1, 1, 0, 2, 2, 2, 2]
    case _ => [0, 0, 0, 0, 0, 0, 0, 0, 2, 1, 1, 2, 2, 1, 1, 2]
  }

  function Rows3_14(p: nat): (r: seq<Three>)
    requires 56 <= p < 60
    ensures |r| == 16 && r[0] == 0 && r[Anchor3a(p)] == 1 && r[Anchor3b(p)] == 2
  {
    match p
    case 56 => [0, 1, 1, 0, 0, 1, 1, 0, 2, 2, 2, 2, 2, 2, 2, 2]
    case 57 => [0, 0, 2, 2, 0, 0, 1, 1, 0, 0, 1, 1, 0, 0, 2, 2]
    case 58 => [0, 0, 2, 2, 1, 1, 2, 2, 1, 1, 2, 2, 0, 0, 2, 2]
    case _ => [0, 0, 0, 0, 0, 0, 0, 0, 0, 0, 0, 0, 2, 1, 1, 2]
  }

  function Rows3_15(p: nat): (r: seq<Three>)
    requires 60 <= p < 64
    ensures |r| == 16 && r[0] == 0 && r[Anchor3a(p)] == 1 && r[Anchor3b(p)] == 2
  {
    match p
    case 60 => [0, 0, 0, 2, 0, 0, 0, 1, 0, 0, 0, 2, 0, 0, 0, 1]
    case 61 => [0, 2, 2, 2, 1, 2, 2, 2, 0, 2, 2, 2, 1, 2, 2, 2]
    case 62 => [0, 1, 0, 1, 2, 2, 2, 2, 2, 2, 2, 2, 2, 2, 2, 2]
    case _ => [0, 1, 1, 1, 2, 0, 1, 1, 2, 2, 0, 1, 2, 2, 2, 0]
  }

  /** Texel 0 is in subset 0 and the anchor of subset 1 is in subset 1. */
  function Partition2(p: nat): (r: seq<Two>)
    requires p < 64
    ensures |r| == 16 && r[0] == 0 && r[Anchor2(p)] == 1
  {
    if p < 8 then Rows2_0(p)
    else if p < 16 then Rows2_1(p)
    else if p < 24 then Rows2_2(p)
    else if p < 32 then Rows2_3(p)
    else if p < 40 then Rows2_4(p)
    else if p < 48 then Rows2_5(p)
    else if p < 56 then Rows2_6(p)
    else Rows2_7(p)
  }

  /** Texel 0 is in subset 0 and each other anchor is in its subset. */
  function Partition3(p: nat): (r: seq<Three>)
    requires p < 64
    ensures |r| == 16 && r[0] == 0 && r[Anchor3a(p)] == 1 && r[Anchor3b(p)] == 2
  {
    if p < 4 then Rows3_0(p)
    else if p < 8 then Rows3_1(p)
    else if p < 12 then Rows3_2(p)
    else if p < 16 then Rows3_3(p)
    else if p < 20 then Rows3_4(p)
    else if p < 24 then Rows3_5(p)
    else if p < 28 then Rows3_6(p)
    else if p < 32 then Rows3_7(p)
    else if p < 36 then Rows3_8(p)
    else if p < 40 then Rows3_9(p)
    else if p < 44 then Rows3_10(p)
    else if p < 48 then Rows3_11(p)
    else if p < 52 then Rows3_12(p)
    else if p < 56 then Rows3_13(p)
    else if p < 60 then Rows3_14(p)
    else Rows3_15(p)
  }
}
