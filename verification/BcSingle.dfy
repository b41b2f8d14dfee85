/** The tables of best endpoint pairs for a single colour: each pair stands for the colour a
    third of the way from its first endpoint to its second, widened to bytes. */
module BcSingle {
  import opened BcColor

  datatype Pair = Pair(max: nat, min: nat)

  /** The values the five-bit table gives back exactly. */
  predicate Exact5(v: nat)
  {
    var w := v % 11;
    w != 1 && w != 3 && w != 4 && w != 6 && w != 9 && v != 7 && v != 242 && v != 250 && v != 253
  }

  /** The values the six-bit table gives back exactly. */
  predicate Exact6(v: nat)
  {
    var w := v % 4;
    && !(v < 40 && w == 3) && !(80 <= v < 105 && w == 0)
    && !(145 <= v < 170 && w == 1) && !(210 <= v && w == 2)
  }

  /** Five-bit endpoints: mix, three times the colour, is within a step of 3v, and gives v back
      exactly when Exact5 says so. A channel x widens to 8x + x / 4. */
  predicate Near5(v: nat, p: Pair)
  {
    var mix := 2 * (8 * p.max + p.max / 4) + (8 * p.min + p.min / 4);
    p.max < 32 && p.min < 32 && 3 * v - 3 <= mix <= 3 * v + 5 && (3 * v <= mix <= 3 * v + 2 <==> Exact5(v))
  }

  /** Six-bit endpoints: a channel x widens to 4x + x / 16. */
  predicate Near6(v: nat, p: Pair)
  {
    var mix := 2 * (4 * p.max + p.max / 16) + (4 * p.min + p.min / 16);
    p.max < 64 && p.min < 64 && 3 * v - 3 <= mix <= 3 * v + 5 && (3 * v <= mix <= 3 * v + 2 <==> Exact6(v))
  }

  function Match5_0(v: nat): (p: Pair)
    requires 0 <= v < 2
    ensures Near5(v, p)
  {
    match v
    case 0 => Pair(0, 0) case _ => Pair(0, 0)
  }

  function Match5_1(v: nat): (p: Pair)
    requires 2 <= v < 4
    ensures Near5(v, p)
  {
    match v
    case 2 => Pair(0, 1) case _ => Pair(0, 1)
  }

  function Match5_2(v: nat): (p: Pair)
    requires 4 <= v < 8
    ensures Near5(v, p)
  {
    match v
    case 4 => Pair(1, 0) case 5 => Pair(1, 0) case 6 => Pair(1, 0) case _ => Pair(1, 1)
  }

  function Match5_3(v: nat): (p: Pair)
    requires 8 <= v < 16
    ensures Near5(v, p)
  {
    match v
    case 8 => Pair(1, 1) case 9 => Pair(1, 1) case 10 => Pair(1, 2) case 11 => Pair(0, 4)
    case 12 => Pair(2, 1) case 13 => Pair(2, 1) case 14 => Pair(2, 1) case _ => Pair(2, 2)
  }

  function Match5_4(v: nat): (p: Pair)
    requires 16 <= v < 24
    ensures Near5(v, p)
  {
    match v
    case 16 => Pair(2, 2) case 17 => Pair(2, 2) case 18 => Pair(2, 3) case 19 => Pair(1, 5)
    case 20 => Pair(3, 2) case 21 => Pair(3, 2) case 22 => Pair(4, 0) case _ => Pair(3, 3)
  }

  function Match5_5(v: nat): (p: Pair)
    requires 24 <= v < 32
    ensures Near5(v, p)
  {
    match v
    case 24 => Pair(3, 3) case 25 => Pair(3, 3) case 26 => Pair(3, 4) case 27 => Pair(3, 4)
    case 28 => Pair(3, 4) case 29 => Pair(3, 5) case 30 => Pair(4, 3) case _ => Pair(4, 3)
  }

  function Match5_6(v: nat): (p: Pair)
    requires 32 <= v < 40
    ensures Near5(v, p)
  {
    match v
    case 32 => Pair(5, 2) case 33 => Pair(4, 4) case 34 => Pair(4, 4) case 35 => Pair(4, 5)
    case 36 => Pair(4, 5) case 37 => Pair(5, 4) case 38 => Pair(5, 4) case _ => Pair(5, 4)
  }

  function Match5_7(v: nat): (p: Pair)
    requires 40 <= v < 48
    ensures Near5(v, p)
  {
    match v
    case 40 => Pair(6, 3) case 41 => Pair(5, 5) case 42 => Pair(5, 5) case 43 => Pair(5, 6)
    case 44 => Pair(4, 8) case 45 => Pair(6, 5) case 46 => Pair(6, 5) case _ => Pair(6, 5)
  }

  function Match5_8(v: nat): (p: Pair)
    requires 48 <= v < 56
    ensures Near5(v, p)
  {
    match v
    case 48 => Pair(6, 6) case 49 => Pair(6, 6) case 50 => Pair(6, 6) case 51 => Pair(6, 7)
    case 52 => Pair(5, 9) case 53 => Pair(7, 6) case 54 => Pair(7, 6) case _ => Pair(8, 4)
  }

  function Match5_9(v: nat): (p: Pair)
    requires 56 <= v < 64
    ensures Near5(v, p)
  {
    match v
    case 56 => Pair(7, 7) case 57 => Pair(7, 7) case 58 => Pair(7, 7) case 59 => Pair(7, 8)
    case 60 => Pair(7, 8) case 61 => Pair(7, 8) case 62 => Pair(7, 9) case _ => Pair(8, 7)
  }

  function Match5_10(v: nat): (p: Pair)
    requires 64 <= v < 72
    ensures Near5(v, p)
  {
    match v
    case 64 => Pair(8, 7) case 65 => Pair(9, 6) case 66 => Pair(8, 8) case 67 => Pair(8, 8)
    case 68 => Pair(8, 9) case 69 => Pair(8, 9) case 70 => Pair(9, 8) case _ => Pair(9, 8)
  }

  function Match5_11(v: nat): (p: Pair)
    requires 72 <= v < 80
    ensures Near5(v, p)
  {
    match v
    case 72 => Pair(9, 8) case 73 => Pair(10, 7) case 74 => Pair(9, 9) case 75 => Pair(9, 9)
    case 76 => Pair(9, 10) case 77 => Pair(8, 12) case 78 => Pair(10, 9) case _ => Pair(10, 9)
  }

  function Match5_12(v: nat): (p: Pair)
    requires 80 <= v < 88
    ensures Near5(v, p)
  {
    match v
    case 80 => Pair(10, 9) case 81 => Pair(10, 10) case 82 => Pair(10, 10) case 83 => Pair(10, 10)
    case 84 => Pair(10, 11) case 85 => Pair(9, 13) case 86 => Pair(11, 10) case _ => Pair(11, 10)
  }

  function Match5_13(v: nat): (p: Pair)
    requires 88 <= v < 96
    ensures Near5(v, p)
  {
    match v
    case 88 => Pair(12, 8) case 89 => Pair(11, 11) case 90 => Pair(11, 11) case 91 => Pair(11, 11)
    case 92 => Pair(11, 12) case 93 => Pair(11, 12) case 94 => Pair(11, 12) case _ => Pair(11, 13)
  }

  function Match5_14(v: nat): (p: Pair)
    requires 96 <= v < 104
    ensures Near5(v, p)
  {
    match v
    case 96 => Pair(12, 11) case 97 => Pair(12, 11) case 98 => Pair(13, 10) case 99 => Pair(12, 12)
    case 100 => Pair(12, 12) case 101 => Pair(12, 13) case 102 => Pair(12, 13) case _ => Pair(13, 12)
  }

  function Match5_15(v: nat): (p: Pair)
    requires 104 <= v < 112
    ensures Near5(v, p)
  {
    match v
    case 104 => Pair(13, 12) case 105 => Pair(13, 12) case 106 => Pair(14, 11) case 107 => Pair(13, 13)
    case 108 => Pair(13, 13) case 109 => Pair(13, 14) case 110 => Pair(12, 16) case _ => Pair(14, 13)
  }

  function Match5_16(v: nat): (p: Pair)
    requires 112 <= v < 120
    ensures Near5(v, p)
  {
    match v
    case 112 => Pair(14, 13) case 113 => Pair(14, 13) case 114 => Pair(14, 14) case 115 => Pair(14, 14)
    case 116 => Pair(14, 14) case 117 => Pair(14, 15) case 118 => Pair(13, 17) case _ => Pair(15, 14)
  }

  function Match5_17(v: nat): (p: Pair)
    requires 120 <= v < 128
    ensures Near5(v, p)
  {
    match v
    case 120 => Pair(15, 14) case 121 => Pair(16, 12) case 122 => Pair(15, 15) case 123 => Pair(15, 15)
    case 124 => Pair(15, 15) case 125 => Pair(15, 16) case 126 => Pair(15, 16) case _ => Pair(15, 16)
  }

  function Match5_18(v: nat): (p: Pair)
    requires 128 <= v < 136
    ensures Near5(v, p)
  {
    match v
    case 128 => Pair(15, 17) case 129 => Pair(16, 15) case 130 => Pair(16, 15) case 131 => Pair(17, 14)
    case 132 => Pair(16, 16) case 133 => Pair(16, 16) case 134 => Pair(16, 17) case _ => Pair(16, 17)
  }

  function Match5_19(v: nat): (p: Pair)
    requires 136 <= v < 144
    ensures Near5(v, p)
  {
    match v
    case 136 => Pair(17, 16) case 137 => Pair(17, 16) case 138 => Pair(17, 16) case 139 => Pair(18, 15)
    case 140 => Pair(17, 17) case 141 => Pair(17, 17) case 142 => Pair(17, 18) case _ => Pair(16, 20)
  }

  function Match5_20(v: nat): (p: Pair)
    requires 144 <= v < 152
    ensures Near5(v, p)
  {
    match v
    case 144 => Pair(18, 17) case 145 => Pair(18, 17) case 146 => Pair(18, 17) case 147 => Pair(18, 18)
    case 148 => Pair(18, 18) case 149 => Pair(18, 18) case 150 => Pair(18, 19) case _ => Pair(17, 21)
  }

  function Match5_21(v: nat): (p: Pair)
    requires 152 <= v < 160
    ensures Near5(v, p)
  {
    match v
    case 152 => Pair(19, 18) case 153 => Pair(19, 18) case 154 => Pair(20, 16) case 155 => Pair(19, 19)
    case 156 => Pair(19, 19) case 157 => Pair(19, 19) case 158 => Pair(19, 20) case _ => Pair(19, 20)
  }

  function Match5_22(v: nat): (p: Pair)
    requires 160 <= v < 168
    ensures Near5(v, p)
  {
    match v
    case 160 => Pair(19, 20) case 161 => Pair(19, 21) case 162 => Pair(20, 19) case 163 => Pair(20, 19)
    case 164 => Pair(21, 18) case 165 => Pair(20, 20) case 166 => Pair(20, 20) case _ => Pair(20, 21)
  }

  function Match5_23(v: nat): (p: Pair)
    requires 168 <= v < 176
    ensures Near5(v, p)
  {
    match v
    case 168 => Pair(20, 21) case 169 => Pair(21, 20) case 170 => Pair(21, 20) case 171 => Pair(21, 20)
    case 172 => Pair(22, 19) case 173 => Pair(21, 21) case 174 => Pair(21, 21) case _ => Pair(21, 22)
  }

  function Match5_24(v: nat): (p: Pair)
    requires 176 <= v < 184
    ensures Near5(v, p)
  {
    match v
    case 176 => Pair(20, 24) case 177 => Pair(22, 21) case 178 => Pair(22, 21) case 179 => Pair(22, 21)
    case 180 => Pair(22, 22) case 181 => Pair(22, 22) case 182 => Pair(22, 22) case _ => Pair(22, 23)
  }

  function Match5_25(v: nat): (p: Pair)
    requires 184 <= v < 192
    ensures Near5(v, p)
  {
    match v
    case 184 => Pair(21, 25) case 185 => Pair(23, 22) case 186 => Pair(23, 22) case 187 => Pair(24, 20)
    case 188 => Pair(23, 23) case 189 => Pair(23, 23) case 190 => Pair(23, 23) case _ => Pair(23, 24)
  }

  function Match5_26(v: nat): (p: Pair)
    requires 192 <= v < 200
    ensures Near5(v, p)
  {
    match v
    case 192 => Pair(23, 24) case 193 => Pair(23, 24) case 194 => Pair(23, 25) case 195 => Pair(24, 23)
    case 196 => Pair(24, 23) case 197 => Pair(25, 22) case 198 => Pair(24, 24) case _ => Pair(24, 24)
  }

  function Match5_27(v: nat): (p: Pair)
    requires 200 <= v < 208
    ensures Near5(v, p)
  {
    match v
    case 200 => Pair(24, 25) case 201 => Pair(24, 25) case 202 => Pair(25, 24) case 203 => Pair(25, 24)
    case 204 => Pair(25, 24) case 205 => Pair(26, 23) case 206 => Pair(25, 25) case _ => Pair(25, 25)
  }

  function Match5_28(v: nat): (p: Pair)
    requires 208 <= v < 216
    ensures Near5(v, p)
  {
    match v
    case 208 => Pair(25, 26) case 209 => Pair(24, 28) case 210 => Pair(26, 25) case 211 => Pair(26, 25)
    case 212 => Pair(26, 25) case 213 => Pair(26, 26) case 214 => Pair(26, 26) case _ => Pair(26, 26)
  }

  function Match5_29(v: nat): (p: Pair)
    requires 216 <= v < 224
    ensures Near5(v, p)
  {
    match v
    case 216 => Pair(26, 27) case 217 => Pair(25, 29) case 218 => Pair(27, 26) case 219 => Pair(27, 26)
    case 220 => Pair(28, 24) case 221 => Pair(27, 27) case 222 => Pair(27, 27) case _ => Pair(27, 27)
  }

  function Match5_30(v: nat): (p: Pair)
    requires 224 <= v < 232
    ensures Near5(v, p)
  {
    match v
    case 224 => Pair(27, 28) case 225 => Pair(27, 28) case 226 => Pair(27, 28) case 227 => Pair(27, 29)
    case 228 => Pair(28, 27) case 229 => Pair(28, 27) case 230 => Pair(29, 26) case _ => Pair(28, 28)
  }

  function Match5_31(v: nat): (p: Pair)
    requires 232 <= v < 240
    ensures Near5(v, p)
  {
    match v
    case 232 => Pair(28, 28) case 233 => Pair(28, 29) case 234 => Pair(28, 29) case 235 => Pair(29, 28)
    case 236 => Pair(29, 28) case 237 => Pair(29, 28) case 238 => Pair(30, 27) case _ => Pair(29, 29)
  }

  function Match5_32(v: nat): (p: Pair)
    requires 240 <= v < 248
    ensures Near5(v, p)
  {
    match v
    case 240 => Pair(29, 29) case 241 => Pair(29, 30) case 242 => Pair(29, 30) case 243 => Pair(30, 29)
    case 244 => Pair(30, 29) case 245 => Pair(30, 29) case 246 => Pair(30, 30) case _ => Pair(30, 30)
  }

  function Match5_33(v: nat): (p: Pair)
    requires 248 <= v < 256
    ensures Near5(v, p)
  {
    match v
    case 248 => Pair(30, 30) case 249 => Pair(30, 31) case 250 => Pair(30, 31) case 251 => Pair(31, 30)
    case 252 => Pair(31, 30) case 253 => Pair(31, 30) case 254 => Pair(31, 31) case _ => Pair(31, 31)
  }

  function Match5Low(v: nat): (p: Pair)
    requires 0 <= v < 128
    ensures Near5(v, p)
  {
    if v < 2 then Match5_0(v)
    else if v < 4 then Match5_1(v)
    else if v < 8 then Match5_2(v)
    else if v < 16 then Match5_3(v)
    else if v < 24 then Match5_4(v)
    else if v < 32 then Match5_5(v)
    else if v < 40 then Match5_6(v)
    else if v < 48 then Match5_7(v)
    else if v < 56 then Match5_8(v)
    else if v < 64 then Match5_9(v)
    else if v < 72 then Match5_10(v)
    else if v < 80 then Match5_11(v)
    else if v < 88 then Match5_12(v)
    else if v < 96 then Match5_13(v)
    else if v < 104 then Match5_14(v)
    else if v < 112 then Match5_15(v)
    else if v < 120 then Match5_16(v)
    else Match5_17(v)
  }

  function Match5High(v: nat): (p: Pair)
    requires 128 <= v < 256
    ensures Near5(v, p)
  {
    if v < 136 then Match5_18(v)
    else if v < 144 then Match5_19(v)
    else if v < 152 then Match5_20(v)
    else if v < 160 then Match5_21(v)
    else if v < 168 then Match5_22(v)
    else if v < 176 then Match5_23(v)
    else if v < 184 then Match5_24(v)
    else if v < 192 then Match5_25(v)
    else if v < 200 then Match5_26(v)
    else if v < 208 then Match5_27(v)
    else if v < 216 then Match5_28(v)
    else if v < 224 then Match5_29(v)
    else if v < 232 then Match5_30(v)
    else if v < 240 then Match5_31(v)
    else if v < 248 then Match5_32(v)
    else Match5_33(v)
  }

  /** The five-bit table. */
  function Match5(v: nat): (p: Pair)
    requires v < 256
    ensures Near5(v, p)
  {
    if v < 128 then Match5Low(v) else Match5High(v)
  }

  function Match6_0(v: nat): (p: Pair)
    requires 0 <= v < 8
    ensures Near6(v, p)
  {
    match v
    case 0 => Pair(0, 0) case 1 => Pair(0, 1) case 2 => Pair(1, 0) case 3 => Pair(1, 1)
    case 4 => Pair(1, 1) case 5 => Pair(1, 2) case 6 => Pair(2, 1) case _ => Pair(2, 2)
  }

  function Match6_1(v: nat): (p: Pair)
    requires 8 <= v < 16
    ensures Near6(v, p)
  {
    match v
    case 8 => Pair(2, 2) case 9 => Pair(2, 3) case 10 => Pair(3, 2) case 11 => Pair(3, 3)
    case 12 => Pair(3, 3) case 13 => Pair(3, 4) case 14 => Pair(4, 3) case _ => Pair(4, 4)
  }

  function Match6_2(v: nat): (p: Pair)
    requires 16 <= v < 24
    ensures Near6(v, p)
  {
    match v
    case 16 => Pair(4, 4) case 17 => Pair(4, 5) case 18 => Pair(5, 4) case 19 => Pair(5, 5)
    case 20 => Pair(5, 5) case 21 => Pair(5, 6) case 22 => Pair(6, 5) case _ => Pair(6, 6)
  }

  function Match6_3(v: nat): (p: Pair)
    requires 24 <= v < 32
    ensures Near6(v, p)
  {
    match v
    case 24 => Pair(6, 6) case 25 => Pair(6, 7) case 26 => Pair(7, 6) case 27 => Pair(7, 7)
    case 28 => Pair(7, 7) case 29 => Pair(7, 8) case 30 => Pair(8, 7) case _ => Pair(8, 8)
  }

  function Match6_4(v: nat): (p: Pair)
    requires 32 <= v < 40
    ensures Near6(v, p)
  {
    match v
    case 32 => Pair(8, 8) case 33 => Pair(8, 9) case 34 => Pair(9, 8) case 35 => Pair(9, 9)
    case 36 => Pair(9, 9) case 37 => Pair(9, 10) case 38 => Pair(10, 9) case _ => Pair(10, 10)
  }

  function Match6_5(v: nat): (p: Pair)
    requires 40 <= v < 48
    ensures Near6(v, p)
  {
    match v
    case 40 => Pair(10, 10) case 41 => Pair(10, 11) case 42 => Pair(11, 10) case 43 => Pair(8, 16)
    case 44 => Pair(11, 11) case 45 => Pair(11, 12) case 46 => Pair(12, 11) case _ => Pair(9, 17)
  }

  function Match6_6(v: nat): (p: Pair)
    requires 48 <= v < 56
    ensures Near6(v, p)
  {
    match v
    case 48 => Pair(12, 12) case 49 => Pair(12, 13) case 50 => Pair(13, 12) case 51 => Pair(11, 16)
    case 52 => Pair(13, 13) case 53 => Pair(13, 14) case 54 => Pair(14, 13) case _ => Pair(12, 17)
  }

  function Match6_7(v: nat): (p: Pair)
    requires 56 <= v < 64
    ensures Near6(v, p)
  {
    match v
    case 56 => Pair(14, 14) case 57 => Pair(14, 15) case 58 => Pair(15, 14) case 59 => Pair(14, 16)
    case 60 => Pair(15, 15) case 61 => Pair(15, 16) case 62 => Pair(16, 14) case _ => Pair(16, 15)
  }

  function Match6_8(v: nat): (p: Pair)
    requires 64 <= v < 72
    ensures Near6(v, p)
  {
    match v
    case 64 => Pair(17, 14) case 65 => Pair(16, 16) case 66 => Pair(16, 17) case 67 => Pair(17, 16)
    case 68 => Pair(18, 15) case 69 => Pair(17, 17) case 70 => Pair(17, 18) case _ => Pair(18, 17)
  }

  function Match6_9(v: nat): (p: Pair)
    requires 72 <= v < 80
    ensures Near6(v, p)
  {
    match v
    case 72 => Pair(20, 14) case 73 => Pair(18, 18) case 74 => Pair(18, 19) case 75 => Pair(19, 18)
    case 76 => Pair(21, 15) case 77 => Pair(19, 19) case 78 => Pair(19, 20) case _ => Pair(20, 19)
  }

  function Match6_10(v: nat): (p: Pair)
    requires 80 <= v < 88
    ensures Near6(v, p)
  {
    match v
    case 80 => Pair(20, 20) case 81 => Pair(20, 20) case 82 => Pair(20, 21) case 83 => Pair(21, 20)
    case 84 => Pair(21, 21) case 85 => Pair(21, 21) case 86 => Pair(21, 22) case _ => Pair(22, 21)
  }

  function Match6_11(v: nat): (p: Pair)
    requires 88 <= v < 96
    ensures Near6(v, p)
  {
    match v
    case 88 => Pair(22, 22) case 89 => Pair(22, 22) case 90 => Pair(22, 23) case 91 => Pair(23, 22)
    case 92 => Pair(23, 23) case 93 => Pair(23, 23) case 94 => Pair(23, 24) case _ => Pair(24, 23)
  }

  function Match6_12(v: nat): (p: Pair)
    requires 96 <= v < 104
    ensures Near6(v, p)
  {
    match v
    case 96 => Pair(24, 24) case 97 => Pair(24, 24) case 98 => Pair(24, 25) case 99 => Pair(25, 24)
    case 100 => Pair(25, 25) case 101 => Pair(25, 25) case 102 => Pair(25, 26) case _ => Pair(26, 25)
  }

  function Match6_13(v: nat): (p: Pair)
    requires 104 <= v < 112
    ensures Near6(v, p)
  {
    match v
    case 104 => Pair(26, 26) case 105 => Pair(26, 26) case 106 => Pair(26, 27) case 107 => Pair(27, 26)
    case 108 => Pair(24, 32) case 109 => Pair(27, 27) case 110 => Pair(27, 28) case _ => Pair(28, 27)
  }

  function Match6_14(v: nat): (p: Pair)
    requires 112 <= v < 120
    ensures Near6(v, p)
  {
    match v
    case 112 => Pair(25, 33) case 113 => Pair(28, 28) case 114 => Pair(28, 29) case 115 => Pair(29, 28)
    case 116 => Pair(27, 32) case 117 => Pair(29, 29) case 118 => Pair(29, 30) case _ => Pair(30, 29)
  }

  function Match6_15(v: nat): (p: Pair)
    requires 120 <= v < 128
    ensures Near6(v, p)
  {
    match v
    case 120 => Pair(28, 33) case 121 => Pair(30, 30) case 122 => Pair(30, 31) case 123 => Pair(31, 30)
    case 124 => Pair(30, 32) case 125 => Pair(31, 31) case 126 => Pair(31, 32) case _ => Pair(32, 30)
  }

  function Match6_16(v: nat): (p: Pair)
    requires 128 <= v < 136
    ensures Near6(v, p)
  {
    match v
    case 128 => Pair(32, 31) case 129 => Pair(33, 30) case 130 => Pair(32, 32) case 131 => Pair(32, 33)
    case 132 => Pair(33, 32) case 133 => Pair(34, 31) case 134 => Pair(33, 33) case _ => Pair(33, 34)
  }

  function Match6_17(v: nat): (p: Pair)
    requires 136 <= v < 144
    ensures Near6(v, p)
  {
    match v
    case 136 => Pair(34, 33) case 137 => Pair(36, 30) case 138 => Pair(34, 34) case 139 => Pair(34, 35)
    case 140 => Pair(35, 34) case 141 => Pair(37, 31) case 142 => Pair(35, 35) case _ => Pair(35, 36)
  }

  function Match6_18(v: nat): (p: Pair)
    requires 144 <= v < 152
    ensures Near6(v, p)
  {
    match v
    case 144 => Pair(36, 35) case 145 => Pair(36, 36) case 146 => Pair(36, 36) case 147 => Pair(36, 37)
    case 148 => Pair(37, 36) case 149 => Pair(37, 37) case 150 => Pair(37, 37) case _ => Pair(37, 38)
  }

  function Match6_19(v: nat): (p: Pair)
    requires 152 <= v < 160
    ensures Near6(v, p)
  {
    match v
    case 152 => Pair(38, 37) case 153 => Pair(38, 38) case 154 => Pair(38, 38) case 155 => Pair(38, 39)
    case 156 => Pair(39, 38) case 157 => Pair(39, 39) case 158 => Pair(39, 39) case _ => Pair(39, 40)
  }

  function Match6_20(v: nat): (p: Pair)
    requires 160 <= v < 168
    ensures Near6(v, p)
  {
    match v
    case 160 => Pair(40, 39) case 161 => Pair(40, 40) case 162 => Pair(40, 40) case 163 => Pair(40, 41)
    case 164 => Pair(41, 40) case 165 => Pair(41, 41) case 166 => Pair(41, 41) case _ => Pair(41, 42)
  }

  function Match6_21(v: nat): (p: Pair)
    requires 168 <= v < 176
    ensures Near6(v, p)
  {
    match v
    case 168 => Pair(42, 41) case 169 => Pair(42, 42) case 170 => Pair(42, 42) case 171 => Pair(42, 43)
    case 172 => Pair(43, 42) case 173 => Pair(40, 48) case 174 => Pair(43, 43) case _ => Pair(43, 44)
  }

  function Match6_22(v: nat): (p: Pair)
    requires 176 <= v < 184
    ensures Near6(v, p)
  {
    match v
    case 176 => Pair(44, 43) case 177 => Pair(41, 49) case 178 => Pair(44, 44) case 179 => Pair(44, 45)
    case 180 => Pair(45, 44) case 181 => Pair(43, 48) case 182 => Pair(45, 45) case _ => Pair(45, 46)
  }

  function Match6_23(v: nat): (p: Pair)
    requires 184 <= v < 192
    ensures Near6(v, p)
  {
    match v
    case 184 => Pair(46, 45) case 185 => Pair(44, 49) case 186 => Pair(46, 46) case 187 => Pair(46, 47)
    case 188 => Pair(47, 46) case 189 => Pair(46, 48) case 190 => Pair(47, 47) case _ => Pair(47, 48)
  }

  function Match6_24(v: nat): (p: Pair)
    requires 192 <= v < 200
    ensures Near6(v, p)
  {
    match v
    case 192 => Pair(48, 46) case 193 => Pair(48, 47) case 194 => Pair(49, 46) case 195 => Pair(48, 48)
    case 196 => Pair(48, 49) case 197 => Pair(49, 48) case 198 => Pair(50, 47) case _ => Pair(49, 49)
  }

  function Match6_25(v: nat): (p: Pair)
    requires 200 <= v < 208
    ensures Near6(v, p)
  {
    match v
    case 200 => Pair(49, 50) case 201 => Pair(50, 49) case 202 => Pair(52, 46) case 203 => Pair(50, 50)
    case 204 => Pair(50, 51) case 205 => Pair(51, 50) case 206 => Pair(53, 47) case _ => Pair(51, 51)
  }

  function Match6_26(v: nat): (p: Pair)
    requires 208 <= v < 216
    ensures Near6(v, p)
  {
    match v
    case 208 => Pair(51, 52) case 209 => Pair(52, 51) case 210 => Pair(52, 52) case 211 => Pair(52, 52)
    case 212 => Pair(52, 53) case 213 => Pair(53, 52) case 214 => Pair(53, 53) case _ => Pair(53, 53)
  }

  function Match6_27(v: nat): (p: Pair)
    requires 216 <= v < 224
    ensures Near6(v, p)
  {
    match v
    case 216 => Pair(53, 54) case 217 => Pair(54, 53) case 218 => Pair(54, 54) case 219 => Pair(54, 54)
    case 220 => Pair(54, 55) case 221 => Pair(55, 54) case 222 => Pair(55, 55) case _ => Pair(55, 55)
  }

  function Match6_28(v: nat): (p: Pair)
    requires 224 <= v < 232
    ensures Near6(v, p)
  {
    match v
    case 224 => Pair(55, 56) case 225 => Pair(56, 55) case 226 => Pair(56, 56) case 227 => Pair(56, 56)
    case 228 => Pair(56, 57) case 229 => Pair(57, 56) case 230 => Pair(57, 57) case _ => Pair(57, 57)
  }

  function Match6_29(v: nat): (p: Pair)
    requires 232 <= v < 240
    ensures Near6(v, p)
  {
    match v
    case 232 => Pair(57, 58) case 233 => Pair(58, 57) case 234 => Pair(58, 58) case 235 => Pair(58, 58)
    case 236 => Pair(58, 59) case 237 => Pair(59, 58) case 238 => Pair(59, 59) case _ => Pair(59, 59)
  }

  function Match6_30(v: nat): (p: Pair)
    requires 240 <= v < 248
    ensures Near6(v, p)
  {
    match v
    case 240 => Pair(59, 60) case 241 => Pair(60, 59) case 242 => Pair(60, 60) case 243 => Pair(60, 60)
    case 244 => Pair(60, 61) case 245 => Pair(61, 60) case 246 => Pair(61, 61) case _ => Pair(61, 61)
  }

  function Match6_31(v: nat): (p: Pair)
    requires 248 <= v < 256
    ensures Near6(v, p)
  {
    match v
    case 248 => Pair(61, 62) case 249 => Pair(62, 61) case 250 => Pair(62, 62) case 251 => Pair(62, 62)
    case 252 => Pair(62, 63) case 253 => Pair(63, 62) case 254 => Pair(63, 63) case _ => Pair(63, 63)
  }

  function Match6Low(v: nat): (p: Pair)
    requires 0 <= v < 128
    ensures Near6(v, p)
  {
    if v < 8 then Match6_0(v)
    else if v < 16 then Match6_1(v)
    else if v < 24 then Match6_2(v)
    else if v < 32 then Match6_3(v)
    else if v < 40 then Match6_4(v)
    else if v < 48 then Match6_5(v)
    else if v < 56 then Match6_6(v)
    else if v < 64 then Match6_7(v)
    else if v < 72 then Match6_8(v)
    else if v < 80 then Match6_9(v)
    else if v < 88 then Match6_10(v)
    else if v < 96 then Match6_11(v)
    else if v < 104 then Match6_12(v)
    else if v < 112 then Match6_13(v)
    else if v < 120 then Match6_14(v)
    else Match6_15(v)
  }

  function Match6High(v: nat): (p: Pair)
    requires 128 <= v < 256
    ensures Near6(v, p)
  {
    if v < 136 then Match6_16(v)
    else if v < 144 then Match6_17(v)
    else if v < 152 then Match6_18(v)
    else if v < 160 then Match6_19(v)
    else if v < 168 then Match6_20(v)
    else if v < 176 then Match6_21(v)
    else if v < 184 then Match6_22(v)
    else if v < 192 then Match6_23(v)
    else if v < 200 then Match6_24(v)
    else if v < 208 then Match6_25(v)
    else if v < 216 then Match6_26(v)
    else if v < 224 then Match6_27(v)
    else if v < 232 then Match6_28(v)
    else if v < 240 then Match6_29(v)
    else if v < 248 then Match6_30(v)
    else Match6_31(v)
  }

  /** The six-bit table. */
  function Match6(v: nat): (p: Pair)
    requires v < 256
    ensures Near6(v, p)
  {
    if v < 128 then Match6Low(v) else Match6High(v)
  }

  // ----- what the tables promise

  /** What a decoder makes of a pair at index 2. */
  function Blend5(p: Pair): int
  {
    Lerp13(p.max * 33 / 4, p.min * 33 / 4)
  }

  function Blend6(p: Pair): int
  {
    Lerp13(p.max * 65 / 16, p.min * 65 / 16)
  }

  function Off(x: int, y: int): nat
  {
    if x < y then y - x else x - y
  }

  lemma Level5(x: nat)
    ensures x * 33 / 4 == 8 * x + x / 4
  {
  }

  lemma Level6(x: nat)
    ensures x * 65 / 16 == 4 * x + x / 16
  {
  }

  lemma ThirdIs(mix: nat, v: nat)
    ensures mix / 3 == v <==> 3 * v <= mix <= 3 * v + 2
    ensures Off(mix / 3, v) <= 1 <==> 3 * v - 3 <= mix <= 3 * v + 5
  {
  }

  /** The five-bit entry decodes to within 1 of v, and to v exactly for the values of Exact5. */
  lemma Single5(v: nat)
    requires v < 256
    ensures Off(Blend5(Match5(v)), v) <= 1 && (Blend5(Match5(v)) == v <==> Exact5(v))
  {
    var p := Match5(v);
    Level5(p.max);
    Level5(p.min);
    ThirdIs(2 * (8 * p.max + p.max / 4) + (8 * p.min + p.min / 4), v);
  }

  lemma Single6(v: nat)
    requires v < 256
    ensures Off(Blend6(Match6(v)), v) <= 1 && (Blend6(Match6(v)) == v <==> Exact6(v))
  {
    var p := Match6(v);
    Level6(p.max);
    Level6(p.min);
    ThirdIs(2 * (4 * p.max + p.max / 16) + (4 * p.min + p.min / 16), v);
  }

  /** The values five-bit endpoints can give: with the parts above and below the quotient by 4
      collected, the mix is 33m + 8n. */
  lemma Reach5(v: nat, m: nat, n: nat)
    requires m <= 21 && n <= 9 && 3 * v <= 33 * m + 8 * n <= 3 * v + 2
    ensures Exact5(v)
  {
    assert v == 11 * m + 8 * n / 3;
    match n
    case 0 => case 1 => case 2 => case 3 => case 4 => case 5 => case 6 => case 7 => case 8 => case 9 =>
  }

  lemma Collect5(x: nat, y: nat, m: nat, n: nat)
    requires m == 2 * (x / 4) + y / 4 && n == 2 * (x % 4) + y % 4
    ensures 2 * (x * 33 / 4) + y * 33 / 4 == 33 * m + 8 * n
  {
    Level5(x);
    Level5(y);
  }

  lemma Collect6(x: nat, y: nat, m: nat, n: nat)
    requires m == 2 * (x / 16) + y / 16 && n == 2 * (x % 16) + y % 16
    ensures 2 * (x * 65 / 16) + y * 65 / 16 == 65 * m + 4 * n
  {
    Level6(x);
    Level6(y);
  }

  lemma Reached5(v: nat, q: Pair)
    requires q.max < 32 && q.min < 32 && Blend5(q) == v
    ensures Exact5(v)
  {
    var m, n := 2 * (q.max / 4) + q.min / 4, 2 * (q.max % 4) + q.min % 4;
    Collect5(q.max, q.min, m, n);
    ThirdIs(33 * m + 8 * n, v);
    Reach5(v, m, n);
  }

  lemma Reached6(v: nat, q: Pair)
    requires q.max < 64 && q.min < 64 && Blend6(q) == v
    ensures Exact6(v) || Missed6(v)
  {
    var m, n := 2 * (q.max / 16) + q.min / 16, 2 * (q.max % 16) + q.min % 16;
    Collect6(q.max, q.min, m, n);
    ThirdIs(65 * m + 4 * n, v);
    Reach6(v, m, n);
  }

  lemma Compare(x: int, y: int, v: nat)
    requires Off(x, v) <= 1 && (y == v ==> x == v)
    ensures Off(x, v) <= Off(y, v)
  {
  }

  /** No pair of five-bit endpoints decodes nearer to v than the table's. */
  lemma Best5(v: nat, q: Pair)
    requires v < 256 && q.max < 32 && q.min < 32
    ensures Off(Blend5(Match5(v)), v) <= Off(Blend5(q), v)
  {
    Single5(v);
    if Blend5(q) == v {
      Reached5(v, q);
    }
    Compare(Blend5(Match5(v)), Blend5(q), v);
  }

  /** Values for which some pair of six-bit endpoints, further apart, decodes nearer. */
  predicate Missed6(v: nat)
  {
    !Exact6(v) && 20 <= v < 234
  }

  function Better6(v: nat): (p: Pair)
    requires Missed6(v)
    ensures p.max < 64 && p.min < 64
  {
    if v < 40 then Pair(0, 3 * v / 4)
    else if v == 104 then Pair(16, 45)
    else if v < 104 then Pair(15, 3 * v / 4 - 30)
    else if v == 169 then Pair(32, 61)
    else if v < 169 then Pair(31, 3 * v / 4 - 62)
    else Pair(63, 3 * v / 4 - 127)
  }

  lemma Better6Exact(v: nat)
    requires Missed6(v)
    ensures Blend6(Better6(v)) == v
  {
    var p := Better6(v);
    BetterMix(v, v / 4, p.max, p.min, p.min / 16);
    Level6(p.max);
    Level6(p.min);
    ThirdIs(2 * (4 * p.max + p.max / 16) + (4 * p.min + p.min / 16), v);
  }

  lemma BetterMix(v: nat, k: nat, x: nat, y: nat, q: nat)
    requires Missed6(v) && k == v / 4 && Pair(x, y) == Better6(v) && q == y / 16
    ensures 3 * v <= 2 * (4 * x + x / 16) + (4 * y + q) <= 3 * v + 2
  {
  }

  /** The values six-bit endpoints cannot give at all. */
  lemma Reach6(v: nat, m: nat, n: nat)
    requires m <= 9 && n <= 45 && 3 * v <= 65 * m + 4 * n <= 3 * v + 2
    ensures Exact6(v) || Missed6(v)
  {
    match m
    case 0 => case 1 => case 2 => case 3 => case 4 => case 5 => case 6 => case 7 => case 8 => case 9 =>
  }

  /** The six-bit table's pair is a nearest one exactly for the values that are not missed. */
  lemma Best6Iff(v: nat)
    requires v < 256
    ensures (forall q: Pair :: q.max < 64 && q.min < 64 ==> Off(Blend6(Match6(v)), v) <= Off(Blend6(q), v)) <==>
              !Missed6(v)
  {
    Single6(v);
    if Missed6(v) {
      Better6Exact(v);
      assert Off(Blend6(Better6(v)), v) == 0;
    } else {
      forall q: Pair | q.max < 64 && q.min < 64
        ensures Off(Blend6(Match6(v)), v) <= Off(Blend6(q), v)
      {
        if Blend6(q) == v {
          Reached6(v, q);
        }
        Compare(Blend6(Match6(v)), Blend6(q), v);
      }
    }
  }
}
