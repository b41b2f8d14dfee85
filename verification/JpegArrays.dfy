/** The code arrays the JPEG writer sends symbols with, and that they are the codes of the tables
    in its header. */
module JpegArrays {
  import opened Bits
  import opened JpegSymbols
  import opened JpegCode
  import opened JpegScan
  import opened JpegTables

  /** The AC symbols in use: a run of zeros and a size class from 1 to 10, sixteen zeros, the end. */
  predicate Coded(s: nat)
  {
    1 <= s % 16 <= 10 || s == 0 || s == 0xF0
  }

  // ----- luminance AC codes

  function YacRow_0(s: nat): (nat, nat)
  {
    match s
    case 0 => (10, 4) case 1 => (0, 2) case 2 => (1, 2) case 3 => (4, 3)
    case 4 => (11, 4) case 5 => (26, 5) case 6 => (120, 7) case 7 => (248, 8)
    case 8 => (1014, 10) case 9 => (65410, 16) case 10 => (65411, 16) case 11 => (0, 0)
    case 12 => (0, 0) case 13 => (0, 0) case 14 => (0, 0) case _ => (0, 0)
  }

  function YacRow_1(s: nat): (nat, nat)
  {
    match s
    case 16 => (0, 0) case 17 => (12, 4) case 18 => (27, 5) case 19 => (121, 7)
    case 20 => (502, 9) case 21 => (2038, 11) case 22 => (65412, 16) case 23 => (65413, 16)
    case 24 => (65414, 16) case 25 => (65415, 16) case 26 => (65416, 16) case 27 => (0, 0)
    case 28 => (0, 0) case 29 => (0, 0) case 30 => (0, 0) case _ => (0, 0)
  }

  function YacRow_2(s: nat): (nat, nat)
  {
    match s
    case 32 => (0, 0) case 33 => (28, 5) case 34 => (249, 8) case 35 => (1015, 10)
    case 36 => (4084, 12) case 37 => (65417, 16) case 38 => (65418, 16) case 39 => (65419, 16)
    case 40 => (65420, 16) case 41 => (65421, 16) case 42 => (65422, 16) case 43 => (0, 0)
    case 44 => (0, 0) case 45 => (0, 0) case 46 => (0, 0) case _ => (0, 0)
  }

  function YacRow_3(s: nat): (nat, nat)
  {
    match s
    case 48 => (0, 0) case 49 => (58, 6) case 50 => (503, 9) case 51 => (4085, 12)
    case 52 => (65423, 16) case 53 => (65424, 16) case 54 => (65425, 16) case 55 => (65426, 16)
    case 56 => (65427, 16) case 57 => (65428, 16) case 58 => (65429, 16) case 59 => (0, 0)
    case 60 => (0, 0) case 61 => (0, 0) case 62 => (0, 0) case _ => (0, 0)
  }

  function YacRow_4(s: nat): (nat, nat)
  {
    match s
    case 64 => (0, 0) case 65 => (59, 6) case 66 => (1016, 10) case 67 => (65430, 16)
    case 68 => (65431, 16) case 69 => (65432, 16) case 70 => (65433, 16) case 71 => (65434, 16)
    case 72 => (65435, 16) case 73 => (65436, 16) case 74 => (65437, 16) case 75 => (0, 0)
    case 76 => (0, 0) case 77 => (0, 0) case 78 => (0, 0) case _ => (0, 0)
  }

  function YacRow_5(s: nat): (nat, nat)
  {
    match s
    case 80 => (0, 0) case 81 => (122, 7) case 82 => (2039, 11) case 83 => (65438, 16)
    case 84 => (65439, 16) case 85 => (65440, 16) case 86 => (65441, 16) case 87 => (65442, 16)
    case 88 => (65443, 16) case 89 => (65444, 16) case 90 => (65445, 16) case 91 => (0, 0)
    case 92 => (0, 0) case 93 => (0, 0) case 94 => (0, 0) case _ => (0, 0)
  }

  function YacRow_6(s: nat): (nat, nat)
  {
    match s
    case 96 => (0, 0) case 97 => (123, 7) case 98 => (4086, 12) case 99 => (65446, 16)
    case 100 => (65447, 16) case 101 => (65448, 16) case 102 => (65449, 16) case 103 => (65450, 16)
    case 104 => (65451, 16) case 105 => (65452, 16) case 106 => (65453, 16) case 107 => (0, 0)
    case 108 => (0, 0) case 109 => (0, 0) case 110 => (0, 0) case _ => (0, 0)
  }

  function YacRow_7(s: nat): (nat, nat)
  {
    match s
    case 112 => (0, 0) case 113 => (250, 8) case 114 => (4087, 12) case 115 => (65454, 16)
    case 116 => (65455, 16) case 117 => (65456, 16) case 118 => (65457, 16) case 119 => (65458, 16)
    case 120 => (65459, 16) case 121 => (65460, 16) case 122 => (65461, 16) case 123 => (0, 0)
    case 124 => (0, 0) case 125 => (0, 0) case 126 => (0, 0) case _ => (0, 0)
  }

  function YacRow_8(s: nat): (nat, nat)
  {
    match s
    case 128 => (0, 0) case 129 => (504, 9) case 130 => (32704, 15) case 131 => (65462, 16)
    case 132 => (65463, 16) case 133 => (65464, 16) case 134 => (65465, 16) case 135 => (65466, 16)
    case 136 => (65467, 16) case 137 => (65468, 16) case 138 => (65469, 16) case 139 => (0, 0)
    case 140 => (0, 0) case 141 => (0, 0) case 142 => (0, 0) case _ => (0, 0)
  }

  function YacRow_9(s: nat): (nat, nat)
  {
    match s
    case 144 => (0, 0) case 145 => (505, 9) case 146 => (65470, 16) case 147 => (65471, 16)
    case 148 => (65472, 16) case 149 => (65473, 16) case 150 => (65474, 16) case 151 => (65475, 16)
    case 152 => (65476, 16) case 153 => (65477, 16) case 154 => (65478, 16) case 155 => (0, 0)
    case 156 => (0, 0) case 157 => (0, 0) case 158 => (0, 0) case _ => (0, 0)
  }

  function YacRow_10(s: nat): (nat, nat)
  {
    match s
    case 160 => (0, 0) case 161 => (506, 9) case 162 => (65479, 16) case 163 => (65480, 16)
    case 164 => (65481, 16) case 165 => (65482, 16) case 166 => (65483, 16) case 167 => (65484, 16)
    case 168 => (65485, 16) case 169 => (65486, 16) case 170 => (65487, 16) case 171 => (0, 0)
    case 172 => (0, 0) case 173 => (0, 0) case 174 => (0, 0) case _ => (0, 0)
  }

  function YacRow_11(s: nat): (nat, nat)
  {
    match s
    case 176 => (0, 0) case 177 => (1017, 10) case 178 => (65488, 16) case 179 => (65489, 16)
    case 180 => (65490, 16) case 181 => (65491, 16) case 182 => (65492, 16) case 183 => (65493, 16)
    case 184 => (65494, 16) case 185 => (65495, 16) case 186 => (65496, 16) case 187 => (0, 0)
    case 188 => (0, 0) case 189 => (0, 0) case 190 => (0, 0) case _ => (0, 0)
  }

  function YacRow_12(s: nat): (nat, nat)
  {
    match s
    case 192 => (0, 0) case 193 => (1018, 10) case 194 => (65497, 16) case 195 => (65498, 16)
    case 196 => (65499, 16) case 197 => (65500, 16) case 198 => (65501, 16) case 199 => (65502, 16)
    case 200 => (65503, 16) case 201 => (65504, 16) case 202 => (65505, 16) case 203 => (0, 0)
    case 204 => (0, 0) case 205 => (0, 0) case 206 => (0, 0) case _ => (0, 0)
  }

  function YacRow_13(s: nat): (nat, nat)
  {
    match s
    case 208 => (0, 0) case 209 => (2040, 11) case 210 => (65506, 16) case 211 => (65507, 16)
    case 212 => (65508, 16) case 213 => (65509, 16) case 214 => (65510, 16) case 215 => (65511, 16)
    case 216 => (65512, 16) case 217 => (65513, 16) case 218 => (65514, 16) case 219 => (0, 0)
    case 220 => (0, 0) case 221 => (0, 0) case 222 => (0, 0) case _ => (0, 0)
  }

  function YacRow_14(s: nat): (nat, nat)
  {
    match s
    case 224 => (0, 0) case 225 => (65515, 16) case 226 => (65516, 16) case 227 => (65517, 16)
    case 228 => (65518, 16) case 229 => (65519, 16) case 230 => (65520, 16) case 231 => (65521, 16)
    case 232 => (65522, 16) case 233 => (65523, 16) case 234 => (65524, 16) case 235 => (0, 0)
    case 236 => (0, 0) case 237 => (0, 0) case 238 => (0, 0) case _ => (0, 0)
  }

  function YacRow_15(s: nat): (nat, nat)
  {
    match s
    case 240 => (2041, 11) case 241 => (65525, 16) case 242 => (65526, 16) case 243 => (65527, 16)
    case 244 => (65528, 16) case 245 => (65529, 16) case 246 => (65530, 16) case 247 => (65531, 16)
    case 248 => (65532, 16) case 249 => (65533, 16) case 250 => (65534, 16) case 251 => (0, 0)
    case 252 => (0, 0) case 253 => (0, 0) case 254 => (0, 0) case _ => (0, 0)
  }

  /** Code and code length of symbol s. */
  function YacAt(s: nat): (nat, nat)
  {
    if s < 16 then YacRow_0(s)
    else if s < 32 then YacRow_1(s)
    else if s < 48 then YacRow_2(s)
    else if s < 64 then YacRow_3(s)
    else if s < 80 then YacRow_4(s)
    else if s < 96 then YacRow_5(s)
    else if s < 112 then YacRow_6(s)
    else if s < 128 then YacRow_7(s)
    else if s < 144 then YacRow_8(s)
    else if s < 160 then YacRow_9(s)
    else if s < 176 then YacRow_10(s)
    else if s < 192 then YacRow_11(s)
    else if s < 208 then YacRow_12(s)
    else if s < 224 then YacRow_13(s)
    else if s < 240 then YacRow_14(s)
    else YacRow_15(s)
  }

  /** The code with number k, and the number of a code. */
  function YacCode(k: nat): (nat, nat)
  {
    if k < 2 then (k + 0, 2)
    else if k < 3 then (k + 2, 3)
    else if k < 6 then (k + 7, 4)
    else if k < 9 then (k + 20, 5)
    else if k < 11 then (k + 49, 6)
    else if k < 15 then (k + 109, 7)
    else if k < 18 then (k + 233, 8)
    else if k < 23 then (k + 484, 9)
    else if k < 28 then (k + 991, 10)
    else if k < 32 then (k + 2010, 11)
    else if k < 36 then (k + 4052, 12)
    else if k < 37 then (k + 32668, 15)
    else (k + 65373, 16)
  }

  function YacRank(code: (nat, nat)): int
  {
    match code.1
    case 2 => code.0 - 0 case 3 => code.0 - 2 case 4 => code.0 - 7 case 5 => code.0 - 20
    case 6 => code.0 - 49 case 7 => code.0 - 109 case 8 => code.0 - 233 case 9 => code.0 - 484
    case 10 => code.0 - 991 case 11 => code.0 - 2010 case 12 => code.0 - 4052 case 15 => code.0 - 32668
    case 16 => code.0 - 65373 case _ => -1
  }

  /** Symbol k has code k. */
  ghost predicate YacRight(k: nat)
  {
    YacValue(k) < 256 && YacAt(YacValue(k)) == YacCode(k)
  }

  /** A symbol with a code is the symbol of that number. */
  ghost predicate YacListed(s: nat)
  {
    var code := YacAt(s);
    && (code.1 > 0 <==> Coded(s))
    && (code == (0, 0) || (0 <= YacRank(code) < 162 && YacValue(YacRank(code)) == s))
  }

  lemma YacRight_0(k: nat)
    requires 0 <= k < 16
    ensures YacRight(k)
  {
  }

  lemma YacRight_1(k: nat)
    requires 16 <= k < 32
    ensures YacRight(k)
  {
  }

  lemma YacRight_2(k: nat)
    requires 32 <= k < 48
    ensures YacRight(k)
  {
  }

  lemma YacRight_3(k: nat)
    requires 48 <= k < 64
    ensures YacRight(k)
  {
  }

  lemma YacRight_4(k: nat)
    requires 64 <= k < 80
    ensures YacRight(k)
  {
  }

  lemma YacRight_5(k: nat)
    requires 80 <= k < 96
    ensures YacRight(k)
  {
  }

  lemma YacRight_6(k: nat)
    requires 96 <= k < 112
    ensures YacRight(k)
  {
  }

  lemma YacRight_7(k: nat)
    requires 112 <= k < 128
    ensures YacRight(k)
  {
  }

  lemma YacRight_8(k: nat)
    requires 128 <= k < 144
    ensures YacRight(k)
  {
  }

  lemma YacRight_9(k: nat)
    requires 144 <= k < 160
    ensures YacRight(k)
  {
  }

  lemma YacRight_10(k: nat)
    requires 160 <= k < 162
    ensures YacRight(k)
  {
  }

  lemma YacRightAll(k: nat)
    requires k < 162
    ensures YacRight(k)
  {
    if k < 16 {
      YacRight_0(k);
    } else if k < 32 {
      YacRight_1(k);
    } else if k < 48 {
      YacRight_2(k);
    } else if k < 64 {
      YacRight_3(k);
    } else if k < 80 {
      YacRight_4(k);
    } else if k < 96 {
      YacRight_5(k);
    } else if k < 112 {
      YacRight_6(k);
    } else if k < 128 {
      YacRight_7(k);
    } else if k < 144 {
      YacRight_8(k);
    } else if k < 160 {
      YacRight_9(k);
    } else {
      YacRight_10(k);
    }
  }

  lemma YacListed_0(s: nat)
    requires 0 <= s < 16
    ensures YacListed(s)
  {
  }

  lemma YacListed_1(s: nat)
    requires 16 <= s < 32
    ensures YacListed(s)
  {
  }

  lemma YacListed_2(s: nat)
    requires 32 <= s < 48
    ensures YacListed(s)
  {
  }

  lemma YacListed_3(s: nat)
    requires 48 <= s < 64
    ensures YacListed(s)
  {
  }

  lemma YacListed_4(s: nat)
    requires 64 <= s < 80
    ensures YacListed(s)
  {
  }

  lemma YacListed_5(s: nat)
    requires 80 <= s < 96
    ensures YacListed(s)
  {
  }

  lemma YacListed_6(s: nat)
    requires 96 <= s < 112
    ensures YacListed(s)
  {
  }

  lemma YacListed_7(s: nat)
    requires 112 <= s < 128
    ensures YacListed(s)
  {
  }

  lemma YacListed_8(s: nat)
    requires 128 <= s < 144
    ensures YacListed(s)
  {
  }

  lemma YacListed_9(s: nat)
    requires 144 <= s < 160
    ensures YacListed(s)
  {
  }

  lemma YacListed_10(s: nat)
    requires 160 <= s < 176
    ensures YacListed(s)
  {
  }

  lemma YacListed_11(s: nat)
    requires 176 <= s < 192
    ensures YacListed(s)
  {
  }

  lemma YacListed_12(s: nat)
    requires 192 <= s < 208
    ensures YacListed(s)
  {
  }

  lemma YacListed_13(s: nat)
    requires 208 <= s < 224
    ensures YacListed(s)
  {
  }

  lemma YacListed_14(s: nat)
    requires 224 <= s < 240
    ensures YacListed(s)
  {
  }

  lemma YacListed_15(s: nat)
    requires 240 <= s < 256
    ensures YacListed(s)
  {
  }

  lemma YacListedAll(s: nat)
    requires s < 256
    ensures YacListed(s)
  {
    if s < 16 {
      YacListed_0(s);
    } else if s < 32 {
      YacListed_1(s);
    } else if s < 48 {
      YacListed_2(s);
    } else if s < 64 {
      YacListed_3(s);
    } else if s < 80 {
      YacListed_4(s);
    } else if s < 96 {
      YacListed_5(s);
    } else if s < 112 {
      YacListed_6(s);
    } else if s < 128 {
      YacListed_7(s);
    } else if s < 144 {
      YacListed_8(s);
    } else if s < 160 {
      YacListed_9(s);
    } else if s < 176 {
      YacListed_10(s);
    } else if s < 192 {
      YacListed_11(s);
    } else if s < 208 {
      YacListed_12(s);
    } else if s < 224 {
      YacListed_13(s);
    } else if s < 240 {
      YacListed_14(s);
    } else {
      YacListed_15(s);
    }
  }

  lemma YacShortCodes(nr: Counts, k: nat)
    requires nr == YacCounts() && 0 <= k < 15
    ensures k < |Codes(nr, 16)| && Codes(nr, 16)[k] == YacCode(k)
  {
    YacFirsts(nr);
    YacLengths(nr);
    if k < 2 {
      CodeNumber(nr, 2, k - 0, k);
    } else if k < 3 {
      CodeNumber(nr, 3, k - 2, k);
    } else if k < 6 {
      CodeNumber(nr, 4, k - 3, k);
    } else if k < 9 {
      CodeNumber(nr, 5, k - 6, k);
    } else if k < 11 {
      CodeNumber(nr, 6, k - 9, k);
    } else {
      CodeNumber(nr, 7, k - 11, k);
    }
  }

  lemma YacLongCodes(nr: Counts, k: nat)
    requires nr == YacCounts() && 15 <= k < 162
    ensures k < |Codes(nr, 16)| && Codes(nr, 16)[k] == YacCode(k)
  {
    YacFirsts(nr);
    YacLengths(nr);
    if k < 18 {
      CodeNumber(nr, 8, k - 15, k);
    } else if k < 23 {
      CodeNumber(nr, 9, k - 18, k);
    } else if k < 28 {
      CodeNumber(nr, 10, k - 23, k);
    } else if k < 32 {
      CodeNumber(nr, 11, k - 28, k);
    } else if k < 36 {
      CodeNumber(nr, 12, k - 32, k);
    } else if k < 37 {
      CodeNumber(nr, 15, k - 36, k);
    } else {
      CodeNumber(nr, 16, k - 37, k);
    }
  }

  /** The codes of the header, by number. */
  lemma YacCodeIs(nr: Counts, k: nat)
    requires nr == YacCounts() && k < 162
    ensures |Codes(nr, 16)| == 162 && Codes(nr, 16)[k] == YacCode(k)
  {
    YacLengths(nr);
    if k < 15 {
      YacShortCodes(nr, k);
    } else {
      YacLongCodes(nr, k);
    }
  }

  /** The array. */
  function YacHt(): (ht: Table)
    ensures |ht| == 256
  {
    seq(256, s requires 0 <= s < 256 => YacAt(s))
  }

  lemma YacSame(d: Definition, s: nat)
    requires IsYac(d) && Described(d.counts, d.values) && s < 256
    ensures HuffTable(d.counts, d.values)[s] == YacAt(s)
  {
    if Place(d.values, s) < 162 {
      YacFound(d.counts, d.values, Place(d.values, s), s);
    } else {
      YacListedAll(s);
      YacNotListed(d.values, s);
    }
  }

  lemma YacFound(nr: Counts, values: seq<nat>, p: nat, s: nat)
    requires nr == YacCounts() && values == YacValues() && p < 162 && values[p] == s
    ensures |Codes(nr, 16)| == 162 && Codes(nr, 16)[p] == YacAt(s)
  {
    YacRightAll(p);
    YacCodeIs(nr, p);
  }

  lemma YacNotListed(values: seq<nat>, s: nat)
    requires values == YacValues() && s !in values && YacListed(s)
    ensures YacAt(s) == (0, 0)
  {
    var k := YacRank(YacAt(s));
    if 0 <= k < 162 {
      assert values[k] == YacValue(k);
    }
  }

  /** The array is the table the header defines. */
  lemma YacTable(d: Definition)
    requires IsYac(d)
    ensures Described(d.counts, d.values) && YacHt() == HuffTable(d.counts, d.values)
  {
    YacDefinition(d);
    forall s | 0 <= s < 256 ensures YacHt()[s] == HuffTable(d.counts, d.values)[s] { YacSame(d, s); }
  }

  // ----- chrominance AC codes

  function UvacRow_0(s: nat): (nat, nat)
  {
    match s
    case 0 => (0, 2) case 1 => (1, 2) case 2 => (4, 3) case 3 => (10, 4)
    case 4 => (24, 5) case 5 => (25, 5) case 6 => (56, 6) case 7 => (120, 7)
    case 8 => (500, 9) case 9 => (1014, 10) case 10 => (4084, 12) case 11 => (0, 0)
    case 12 => (0, 0) case 13 => (0, 0) case 14 => (0, 0) case _ => (0, 0)
  }

  function UvacRow_1(s: nat): (nat, nat)
  {
    match s
    case 16 => (0, 0) case 17 => (11, 4) case 18 => (57, 6) case 19 => (246, 8)
    case 20 => (501, 9) case 21 => (2038, 11) case 22 => (4085, 12) case 23 => (65416, 16)
    case 24 => (65417, 16) case 25 => (65418, 16) case 26 => (65419, 16) case 27 => (0, 0)
    case 28 => (0, 0) case 29 => (0, 0) case 30 => (0, 0) case _ => (0, 0)
  }

  function UvacRow_2(s: nat): (nat, nat)
  {
    match s
    case 32 => (0, 0) case 33 => (26, 5) case 34 => (247, 8) case 35 => (1015, 10)
    case 36 => (4086, 12) case 37 => (32706, 15) case 38 => (65420, 16) case 39 => (65421, 16)
    case 40 => (65422, 16) case 41 => (65423, 16) case 42 => (65424, 16) case 43 => (0, 0)
    case 44 => (0, 0) case 45 => (0, 0) case 46 => (0, 0) case _ => (0, 0)
  }

  function UvacRow_3(s: nat): (nat, nat)
  {
    match s
    case 48 => (0, 0) case 49 => (27, 5) case 50 => (248, 8) case 51 => (1016, 10)
    case 52 => (4087, 12) case 53 => (65425, 16) case 54 => (65426, 16) case 55 => (65427, 16)
    case 56 => (65428, 16) case 57 => (65429, 16) case 58 => (65430, 16) case 59 => (0, 0)
    case 60 => (0, 0) case 61 => (0, 0) case 62 => (0, 0) case _ => (0, 0)
  }

  function UvacRow_4(s: nat): (nat, nat)
  {
    match s
    case 64 => (0, 0) case 65 => (58, 6) case 66 => (502, 9) case 67 => (65431, 16)
    case 68 => (65432, 16) case 69 => (65433, 16) case 70 => (65434, 16) case 71 => (65435, 16)
    case 72 => (65436, 16) case 73 => (65437, 16) case 74 => (65438, 16) case 75 => (0, 0)
    case 76 => (0, 0) case 77 => (0, 0) case 78 => (0, 0) case _ => (0, 0)
  }

  function UvacRow_5(s: nat): (nat, nat)
  {
    match s
    case 80 => (0, 0) case 81 => (59, 6) case 82 => (1017, 10) case 83 => (65439, 16)
    case 84 => (65440, 16) case 85 => (65441, 16) case 86 => (65442, 16) case 87 => (65443, 16)
    case 88 => (65444, 16) case 89 => (65445, 16) case 90 => (65446, 16) case 91 => (0, 0)
    case 92 => (0, 0) case 93 => (0, 0) case 94 => (0, 0) case _ => (0, 0)
  }

  function UvacRow_6(s: nat): (nat, nat)
  {
    match s
    case 96 => (0, 0) case 97 => (121, 7) case 98 => (2039, 11) case 99 => (65447, 16)
    case 100 => (65448, 16) case 101 => (65449, 16) case 102 => (65450, 16) case 103 => (65451, 16)
    case 104 => (65452, 16) case 105 => (65453, 16) case 106 => (65454, 16) case 107 => (0, 0)
    case 108 => (0, 0) case 109 => (0, 0) case 110 => (0, 0) case _ => (0, 0)
  }

  function UvacRow_7(s: nat): (nat, nat)
  {
    match s
    case 112 => (0, 0) case 113 => (122, 7) case 114 => (2040, 11) case 115 => (65455, 16)
    case 116 => (65456, 16) case 117 => (65457, 16) case 118 => (65458, 16) case 119 => (65459, 16)
    case 120 => (65460, 16) case 121 => (65461, 16) case 122 => (65462, 16) case 123 => (0, 0)
    case 124 => (0, 0) case 125 => (0, 0) case 126 => (0, 0) case _ => (0, 0)
  }

  function UvacRow_8(s: nat): (nat, nat)
  {
    match s
    case 128 => (0, 0) case 129 => (249, 8) case 130 => (65463, 16) case 131 => (65464, 16)
    case 132 => (65465, 16) case 133 => (65466, 16) case 134 => (65467, 16) case 135 => (65468, 16)
    case 136 => (65469, 16) case 137 => (65470, 16) case 138 => (65471, 16) case 139 => (0, 0)
    case 140 => (0, 0) case 141 => (0, 0) case 142 => (0, 0) case _ => (0, 0)
  }

  function UvacRow_9(s: nat): (nat, nat)
  {
    match s
    case 144 => (0, 0) case 145 => (503, 9) case 146 => (65472, 16) case 147 => (65473, 16)
    case 148 => (65474, 16) case 149 => (65475, 16) case 150 => (65476, 16) case 151 => (65477, 16)
    case 152 => (65478, 16) case 153 => (65479, 16) case 154 => (65480, 16) case 155 => (0, 0)
    case 156 => (0, 0) case 157 => (0, 0) case 158 => (0, 0) case _ => (0, 0)
  }

  function UvacRow_10(s: nat): (nat, nat)
  {
    match s
    case 160 => (0, 0) case 161 => (504, 9) case 162 => (65481, 16) case 163 => (65482, 16)
    case 164 => (65483, 16) case 165 => (65484, 16) case 166 => (65485, 16) case 167 => (65486, 16)
    case 168 => (65487, 16) case 169 => (65488, 16) case 170 => (65489, 16) case 171 => (0, 0)
    case 172 => (0, 0) case 173 => (0, 0) case 174 => (0, 0) case _ => (0, 0)
  }

  function UvacRow_11(s: nat): (nat, nat)
  {
    match s
    case 176 => (0, 0) case 177 => (505, 9) case 178 => (65490, 16) case 179 => (65491, 16)
    case 180 => (65492, 16) case 181 => (65493, 16) case 182 => (65494, 16) case 183 => (65495, 16)
    case 184 => (65496, 16) case 185 => (65497, 16) case 186 => (65498, 16) case 187 => (0, 0)
    case 188 => (0, 0) case 189 => (0, 0) case 190 => (0, 0) case _ => (0, 0)
  }

  function UvacRow_12(s: nat): (nat, nat)
  {
    match s
    case 192 => (0, 0) case 193 => (506, 9) case 194 => (65499, 16) case 195 => (65500, 16)
    case 196 => (65501, 16) case 197 => (65502, 16) case 198 => (65503, 16) case 199 => (65504, 16)
    case 200 => (65505, 16) case 201 => (65506, 16) case 202 => (65507, 16) case 203 => (0, 0)
    case 204 => (0, 0) case 205 => (0, 0) case 206 => (0, 0) case _ => (0, 0)
  }

  function UvacRow_13(s: nat): (nat, nat)
  {
    match s
    case 208 => (0, 0) case 209 => (2041, 11) case 210 => (65508, 16) case 211 => (65509, 16)
    case 212 => (65510, 16) case 213 => (65511, 16) case 214 => (65512, 16) case 215 => (65513, 16)
    case 216 => (65514, 16) case 217 => (65515, 16) case 218 => (65516, 16) case 219 => (0, 0)
    case 220 => (0, 0) case 221 => (0, 0) case 222 => (0, 0) case _ => (0, 0)
  }

  function UvacRow_14(s: nat): (nat, nat)
  {
    match s
    case 224 => (0, 0) case 225 => (16352, 14) case 226 => (65517, 16) case 227 => (65518, 16)
    case 228 => (65519, 16) case 229 => (65520, 16) case 230 => (65521, 16) case 231 => (65522, 16)
    case 232 => (65523, 16) case 233 => (65524, 16) case 234 => (65525, 16) case 235 => (0, 0)
    case 236 => (0, 0) case 237 => (0, 0) case 238 => (0, 0) case _ => (0, 0)
  }

  function UvacRow_15(s: nat): (nat, nat)
  {
    match s
    case 240 => (1018, 10) case 241 => (32707, 15) case 242 => (65526, 16) case 243 => (65527, 16)
    case 244 => (65528, 16) case 245 => (65529, 16) case 246 => (65530, 16) case 247 => (65531, 16)
    case 248 => (65532, 16) case 249 => (65533, 16) case 250 => (65534, 16) case 251 => (0, 0)
    case 252 => (0, 0) case 253 => (0, 0) case 254 => (0, 0) case _ => (0, 0)
  }

  /** Code and code length of symbol s. */
  function UvacAt(s: nat): (nat, nat)
  {
    if s < 16 then UvacRow_0(s)
    else if s < 32 then UvacRow_1(s)
    else if s < 48 then UvacRow_2(s)
    else if s < 64 then UvacRow_3(s)
    else if s < 80 then UvacRow_4(s)
    else if s < 96 then UvacRow_5(s)
    else if s < 112 then UvacRow_6(s)
    else if s < 128 then UvacRow_7(s)
    else if s < 144 then UvacRow_8(s)
    else if s < 160 then UvacRow_9(s)
    else if s < 176 then UvacRow_10(s)
    else if s < 192 then UvacRow_11(s)
    else if s < 208 then UvacRow_12(s)
    else if s < 224 then UvacRow_13(s)
    else if s < 240 then UvacRow_14(s)
    else UvacRow_15(s)
  }

  /** The code with number k, and the number of a code. */
  function UvacCode(k: nat): (nat, nat)
  {
    if k < 2 then (k + 0, 2)
    else if k < 3 then (k + 2, 3)
    else if k < 5 then (k + 7, 4)
    else if k < 9 then (k + 19, 5)
    else if k < 13 then (k + 47, 6)
    else if k < 16 then (k + 107, 7)
    else if k < 20 then (k + 230, 8)
    else if k < 27 then (k + 480, 9)
    else if k < 32 then (k + 987, 10)
    else if k < 36 then (k + 2006, 11)
    else if k < 40 then (k + 4048, 12)
    else if k < 41 then (k + 16312, 14)
    else if k < 43 then (k + 32665, 15)
    else (k + 65373, 16)
  }

  function UvacRank(code: (nat, nat)): int
  {
    match code.1
    case 2 => code.0 - 0 case 3 => code.0 - 2 case 4 => code.0 - 7 case 5 => code.0 - 19
    case 6 => code.0 - 47 case 7 => code.0 - 107 case 8 => code.0 - 230 case 9 => code.0 - 480
    case 10 => code.0 - 987 case 11 => code.0 - 2006 case 12 => code.0 - 4048 case 14 => code.0 - 16312
    case 15 => code.0 - 32665 case 16 => code.0 - 65373 case _ => -1
  }

  /** Symbol k has code k. */
  ghost predicate UvacRight(k: nat)
  {
    UvacValue(k) < 256 && UvacAt(UvacValue(k)) == UvacCode(k)
  }

  /** A symbol with a code is the symbol of that number. */
  ghost predicate UvacListed(s: nat)
  {
    var code := UvacAt(s);
    && (code.1 > 0 <==> Coded(s))
    && (code == (0, 0) || (0 <= UvacRank(code) < 162 && UvacValue(UvacRank(code)) == s))
  }

  lemma UvacRight_0(k: nat)
    requires 0 <= k < 16
    ensures UvacRight(k)
  {
  }

  lemma UvacRight_1(k: nat)
    requires 16 <= k < 32
    ensures UvacRight(k)
  {
  }

  lemma UvacRight_2(k: nat)
    requires 32 <= k < 48
    ensures UvacRight(k)
  {
  }

  lemma UvacRight_3(k: nat)
    requires 48 <= k < 64
    ensures UvacRight(k)
  {
  }

  lemma UvacRight_4(k: nat)
    requires 64 <= k < 80
    ensures UvacRight(k)
  {
  }

  lemma UvacRight_5(k: nat)
    requires 80 <= k < 96
    ensures UvacRight(k)
  {
  }

  lemma UvacRight_6(k: nat)
    requires 96 <= k < 112
    ensures UvacRight(k)
  {
  }

  lemma UvacRight_7(k: nat)
    requires 112 <= k < 128
    ensures UvacRight(k)
  {
  }

  lemma UvacRight_8(k: nat)
    requires 128 <= k < 144
    ensures UvacRight(k)
  {
  }

  lemma UvacRight_9(k: nat)
    requires 144 <= k < 160
    ensures UvacRight(k)
  {
  }

  lemma UvacRight_10(k: nat)
    requires 160 <= k < 162
    ensures UvacRight(k)
  {
  }

  lemma UvacRightAll(k: nat)
    requires k < 162
    ensures UvacRight(k)
  {
    if k < 16 {
      UvacRight_0(k);
    } else if k < 32 {
      UvacRight_1(k);
    } else if k < 48 {
      UvacRight_2(k);
    } else if k < 64 {
      UvacRight_3(k);
    } else if k < 80 {
      UvacRight_4(k);
    } else if k < 96 {
      UvacRight_5(k);
    } else if k < 112 {
      UvacRight_6(k);
    } else if k < 128 {
      UvacRight_7(k);
    } else if k < 144 {
      UvacRight_8(k);
    } else if k < 160 {
      UvacRight_9(k);
    } else {
      UvacRight_10(k);
    }
  }

  lemma UvacListed_0(s: nat)
    requires 0 <= s < 16
    ensures UvacListed(s)
  {
  }

  lemma UvacListed_1(s: nat)
    requires 16 <= s < 32
    ensures UvacListed(s)
  {
  }

  lemma UvacListed_2(s: nat)
    requires 32 <= s < 48
    ensures UvacListed(s)
  {
  }

  lemma UvacListed_3(s: nat)
    requires 48 <= s < 64
    ensures UvacListed(s)
  {
  }

  lemma UvacListed_4(s: nat)
    requires 64 <= s < 80
    ensures UvacListed(s)
  {
  }

  lemma UvacListed_5(s: nat)
    requires 80 <= s < 96
    ensures UvacListed(s)
  {
  }

  lemma UvacListed_6(s: nat)
    requires 96 <= s < 112
    ensures UvacListed(s)
  {
  }

  lemma UvacListed_7(s: nat)
    requires 112 <= s < 128
    ensures UvacListed(s)
  {
  }

  lemma UvacListed_8(s: nat)
    requires 128 <= s < 144
    ensures UvacListed(s)
  {
  }

  lemma UvacListed_9(s: nat)
    requires 144 <= s < 160
    ensures UvacListed(s)
  {
  }

  lemma UvacListed_10(s: nat)
    requires 160 <= s < 176
    ensures UvacListed(s)
  {
  }

  lemma UvacListed_11(s: nat)
    requires 176 <= s < 192
    ensures UvacListed(s)
  {
  }

  lemma UvacListed_12(s: nat)
    requires 192 <= s < 208
    ensures UvacListed(s)
  {
  }

  lemma UvacListed_13(s: nat)
    requires 208 <= s < 224
    ensures UvacListed(s)
  {
  }

  lemma UvacListed_14(s: nat)
    requires 224 <= s < 240
    ensures UvacListed(s)
  {
  }

  lemma UvacListed_15(s: nat)
    requires 240 <= s < 256
    ensures UvacListed(s)
  {
  }

  lemma UvacListedAll(s: nat)
    requires s < 256
    ensures UvacListed(s)
  {
    if s < 16 {
      UvacListed_0(s);
    } else if s < 32 {
      UvacListed_1(s);
    } else if s < 48 {
      UvacListed_2(s);
    } else if s < 64 {
      UvacListed_3(s);
    } else if s < 80 {
      UvacListed_4(s);
    } else if s < 96 {
      UvacListed_5(s);
    } else if s < 112 {
      UvacListed_6(s);
    } else if s < 128 {
      UvacListed_7(s);
    } else if s < 144 {
      UvacListed_8(s);
    } else if s < 160 {
      UvacListed_9(s);
    } else if s < 176 {
      UvacListed_10(s);
    } else if s < 192 {
      UvacListed_11(s);
    } else if s < 208 {
      UvacListed_12(s);
    } else if s < 224 {
      UvacListed_13(s);
    } else if s < 240 {
      UvacListed_14(s);
    } else {
      UvacListed_15(s);
    }
  }

  lemma UvacShortCodes(nr: Counts, k: nat)
    requires nr == UvacCounts() && 0 <= k < 20
    ensures k < |Codes(nr, 16)| && Codes(nr, 16)[k] == UvacCode(k)
  {
    UvacFirsts(nr);
    UvacLengths(nr);
    if k < 2 {
      CodeNumber(nr, 2, k - 0, k);
    } else if k < 3 {
      CodeNumber(nr, 3, k - 2, k);
    } else if k < 5 {
      CodeNumber(nr, 4, k - 3, k);
    } else if k < 9 {
      CodeNumber(nr, 5, k - 5, k);
    } else if k < 13 {
      CodeNumber(nr, 6, k - 9, k);
    } else if k < 16 {
      CodeNumber(nr, 7, k - 13, k);
    } else {
      CodeNumber(nr, 8, k - 16, k);
    }
  }

  lemma UvacLongCodes(nr: Counts, k: nat)
    requires nr == UvacCounts() && 20 <= k < 162
    ensures k < |Codes(nr, 16)| && Codes(nr, 16)[k] == UvacCode(k)
  {
    UvacFirsts(nr);
    UvacLengths(nr);
    if k < 27 {
      CodeNumber(nr, 9, k - 20, k);
    } else if k < 32 {
      CodeNumber(nr, 10, k - 27, k);
    } else if k < 36 {
      CodeNumber(nr, 11, k - 32, k);
    } else if k < 40 {
      CodeNumber(nr, 12, k - 36, k);
    } else if k < 41 {
      CodeNumber(nr, 14, k - 40, k);
    } else if k < 43 {
      CodeNumber(nr, 15, k - 41, k);
    } else {
      CodeNumber(nr, 16, k - 43, k);
    }
  }

  /** The codes of the header, by number. */
  lemma UvacCodeIs(nr: Counts, k: nat)
    requires nr == UvacCounts() && k < 162
    ensures |Codes(nr, 16)| == 162 && Codes(nr, 16)[k] == UvacCode(k)
  {
    UvacLengths(nr);
    if k < 20 {
      UvacShortCodes(nr, k);
    } else {
      UvacLongCodes(nr, k);
    }
  }

  /** The array. */
  function UvacHt(): (ht: Table)
    ensures |ht| == 256
  {
    seq(256, s requires 0 <= s < 256 => UvacAt(s))
  }

  lemma UvacSame(d: Definition, s: nat)
    requires IsUvac(d) && Described(d.counts, d.values) && s < 256
    ensures HuffTable(d.counts, d.values)[s] == UvacAt(s)
  {
    if Place(d.values, s) < 162 {
      UvacFound(d.counts, d.values, Place(d.values, s), s);
    } else {
      UvacListedAll(s);
      UvacNotListed(d.values, s);
    }
  }

  lemma UvacFound(nr: Counts, values: seq<nat>, p: nat, s: nat)
    requires nr == UvacCounts() && values == UvacValues() && p < 162 && values[p] == s
    ensures |Codes(nr, 16)| == 162 && Codes(nr, 16)[p] == UvacAt(s)
  {
    UvacRightAll(p);
    UvacCodeIs(nr, p);
  }

  lemma UvacNotListed(values: seq<nat>, s: nat)
    requires values == UvacValues() && s !in values && UvacListed(s)
    ensures UvacAt(s) == (0, 0)
  {
    var k := UvacRank(UvacAt(s));
    if 0 <= k < 162 {
      assert values[k] == UvacValue(k);
    }
  }

  /** The array is the table the header defines. */
  lemma UvacTable(d: Definition)
    requires IsUvac(d)
    ensures Described(d.counts, d.values) && UvacHt() == HuffTable(d.counts, d.values)
  {
    UvacDefinition(d);
    forall s | 0 <= s < 256 ensures UvacHt()[s] == HuffTable(d.counts, d.values)[s] { UvacSame(d, s); }
  }

  // ----- luminance DC codes

  function YdcAt(s: nat): (nat, nat)
  {
    match s
    case 0 => (0, 2) case 1 => (2, 3) case 2 => (3, 3) case 3 => (4, 3) case 4 => (5, 3)
    case 5 => (6, 3) case 6 => (14, 4) case 7 => (30, 5) case 8 => (62, 6) case 9 => (126, 7)
    case 10 => (254, 8) case 11 => (510, 9) case _ => (0, 0)
  }

  lemma YdcCodeIs(nr: Counts, k: nat)
    requires nr == YdcCounts() && k < 12
    ensures |Codes(nr, 16)| == 12 && Codes(nr, 16)[k] == YdcAt(k)
  {
    YdcFirsts(nr);
    YdcLengths(nr);
    if k < 1 {
      CodeNumber(nr, 2, k - 0, k);
    } else if k < 6 {
      CodeNumber(nr, 3, k - 1, k);
    } else if k < 7 {
      CodeNumber(nr, 4, k - 6, k);
    } else if k < 8 {
      CodeNumber(nr, 5, k - 7, k);
    } else if k < 9 {
      CodeNumber(nr, 6, k - 8, k);
    } else if k < 10 {
      CodeNumber(nr, 7, k - 9, k);
    } else if k < 11 {
      CodeNumber(nr, 8, k - 10, k);
    } else {
      CodeNumber(nr, 9, k - 11, k);
    }
  }

  function YdcHt(): (ht: Table)
    ensures |ht| == 256
  {
    seq(256, s requires 0 <= s < 256 => YdcAt(s))
  }

  lemma YdcValue(values: seq<nat>, k: nat)
    requires values == YdcValues() && k < 12
    ensures values[k] == k
  {
  }

  lemma YdcSame(d: Definition, s: nat)
    requires IsYdc(d) && Described(d.counts, d.values) && s < 256
    ensures HuffTable(d.counts, d.values)[s] == YdcAt(s)
  {
    var p := Place(d.values, s);
    if s < 12 {
      YdcValue(d.values, s);
    }
    if p < 12 {
      YdcValue(d.values, p);
      YdcCodeIs(d.counts, p);
    }
  }

  lemma YdcTable(d: Definition)
    requires IsYdc(d)
    ensures Described(d.counts, d.values) && YdcHt() == HuffTable(d.counts, d.values)
  {
    YdcDefinition(d);
    forall s | 0 <= s < 256 ensures YdcHt()[s] == HuffTable(d.counts, d.values)[s] { YdcSame(d, s); }
  }

  // ----- chrominance DC codes

  function UvdcAt(s: nat): (nat, nat)
  {
    match s
    case 0 => (0, 2) case 1 => (1, 2) case 2 => (2, 2) case 3 => (6, 3) case 4 => (14, 4)
    case 5 => (30, 5) case 6 => (62, 6) case 7 => (126, 7) case 8 => (254, 8) case 9 => (510, 9)
    case 10 => (1022, 10) case 11 => (2046, 11) case _ => (0, 0)
  }

  lemma UvdcCodeIs(nr: Counts, k: nat)
    requires nr == UvdcCounts() && k < 12
    ensures |Codes(nr, 16)| == 12 && Codes(nr, 16)[k] == UvdcAt(k)
  {
    UvdcFirsts(nr);
    UvdcLengths(nr);
    if k < 3 {
      CodeNumber(nr, 2, k - 0, k);
    } else if k < 4 {
      CodeNumber(nr, 3, k - 3, k);
    } else if k < 5 {
      CodeNumber(nr, 4, k - 4, k);
    } else if k < 6 {
      CodeNumber(nr, 5, k - 5, k);
    } else if k < 7 {
      CodeNumber(nr, 6, k - 6, k);
    } else if k < 8 {
      CodeNumber(nr, 7, k - 7, k);
    } else if k < 9 {
      CodeNumber(nr, 8, k - 8, k);
    } else if k < 10 {
      CodeNumber(nr, 9, k - 9, k);
    } else if k < 11 {
      CodeNumber(nr, 10, k - 10, k);
    } else {
      CodeNumber(nr, 11, k - 11, k);
    }
  }

  function UvdcHt(): (ht: Table)
    ensures |ht| == 256
  {
    seq(256, s requires 0 <= s < 256 => UvdcAt(s))
  }

  lemma UvdcValue(values: seq<nat>, k: nat)
    requires values == UvdcValues() && k < 12
    ensures values[k] == k
  {
  }

  lemma UvdcSame(d: Definition, s: nat)
    requires IsUvdc(d) && Described(d.counts, d.values) && s < 256
    ensures HuffTable(d.counts, d.values)[s] == UvdcAt(s)
  {
    var p := Place(d.values, s);
    if s < 12 {
      UvdcValue(d.values, s);
    }
    if p < 12 {
      UvdcValue(d.values, p);
      UvdcCodeIs(d.counts, p);
    }
  }

  lemma UvdcTable(d: Definition)
    requires IsUvdc(d)
    ensures Described(d.counts, d.values) && UvdcHt() == HuffTable(d.counts, d.values)
  {
    UvdcDefinition(d);
    forall s | 0 <= s < 256 ensures UvdcHt()[s] == HuffTable(d.counts, d.values)[s] { UvdcSame(d, s); }
  }
}
