/** The symbols of the AC tables in the order of their codes, as the JPEG header lists them. */
module JpegSymbols {
  function YacValue_0(k: nat): nat
  {
    match k
    case 0 => 0x01 case 1 => 0x02 case 2 => 0x03 case 3 => 0x00 case 4 => 0x04 case 5 => 0x11
    case 6 => 0x05 case 7 => 0x12 case 8 => 0x21 case 9 => 0x31 case 10 => 0x41 case 11 => 0x06
    case 12 => 0x13 case 13 => 0x51 case 14 => 0x61 case _ => 0x07
  }

  function YacValue_1(k: nat): nat
  {
    match k
    case 16 => 0x22 case 17 => 0x71 case 18 => 0x14 case 19 => 0x32 case 20 => 0x81 case 21 => 0x91
    case 22 => 0xa1 case 23 => 0x08 case 24 => 0x23 case 25 => 0x42 case 26 => 0xb1 case 27 => 0xc1
    case 28 => 0x15 case 29 => 0x52 case 30 => 0xd1 case _ => 0xf0
  }

  function YacValue_2(k: nat): nat
  {
    match k
    case 32 => 0x24 case 33 => 0x33 case 34 => 0x62 case 35 => 0x72 case 36 => 0x82 case 37 => 0x09
    case 38 => 0x0a case 39 => 0x16 case 40 => 0x17 case 41 => 0x18 case 42 => 0x19 case 43 => 0x1a
    case 44 => 0x25 case 45 => 0x26 case 46 => 0x27 case _ => 0x28
  }

  function YacValue_3(k: nat): nat
  {
    match k
    case 48 => 0x29 case 49 => 0x2a case 50 => 0x34 case 51 => 0x35 case 52 => 0x36 case 53 => 0x37
    case 54 => 0x38 case 55 => 0x39 case 56 => 0x3a case 57 => 0x43 case 58 => 0x44 case 59 => 0x45
    case 60 => 0x46 case 61 => 0x47 case 62 => 0x48 case _ => 0x49
  }

  function YacValue_4(k: nat): nat
  {
    match k
    case 64 => 0x4a case 65 => 0x53 case 66 => 0x54 case 67 => 0x55 case 68 => 0x56 case 69 => 0x57
    case 70 => 0x58 case 71 => 0x59 case 72 => 0x5a case 73 => 0x63 case 74 => 0x64 case 75 => 0x65
    case 76 => 0x66 case 77 => 0x67 case 78 => 0x68 case _ => 0x69
  }

  function YacValue_5(k: nat): nat
  {
    match k
    case 80 => 0x6a case 81 => 0x73 case 82 => 0x74 case 83 => 0x75 case 84 => 0x76 case 85 => 0x77
    case 86 => 0x78 case 87 => 0x79 case 88 => 0x7a case 89 => 0x83 case 90 => 0x84 case 91 => 0x85
    case 92 => 0x86 case 93 => 0x87 case 94 => 0x88 case _ => 0x89
  }

  function YacValue_6(k: nat): nat
  {
    match k
    case 96 => 0x8a case 97 => 0x92 case 98 => 0x93 case 99 => 0x94 case 100 => 0x95 case 101 => 0x96
    case 102 => 0x97 case 103 => 0x98 case 104 => 0x99 case 105 => 0x9a case 106 => 0xa2 case 107 => 0xa3
    case 108 => 0xa4 case 109 => 0xa5 case 110 => 0xa6 case _ => 0xa7
  }

  function YacValue_7(k: nat): nat
  {
    match k
    case 112 => 0xa8 case 113 => 0xa9 case 114 => 0xaa case 115 => 0xb2 case 116 => 0xb3 case 117 => 0xb4
    case 118 => 0xb5 case 119 => 0xb6 case 120 => 0xb7 case 121 => 0xb8 case 122 => 0xb9 case 123 => 0xba
    case 124 => 0xc2 case 125 => 0xc3 case 126 => 0xc4 case _ => 0xc5
  }

  function YacValue_8(k: nat): nat
  {
    match k
    case 128 => 0xc6 case 129 => 0xc7 case 130 => 0xc8 case 131 => 0xc9 case 132 => 0xca case 133 => 0xd2
    case 134 => 0xd3 case 135 => 0xd4 case 136 => 0xd5 case 137 => 0xd6 case 138 => 0xd7 case 139 => 0xd8
    case 140 => 0xd9 case 141 => 0xda case 142 => 0xe1 case _ => 0xe2
  }

  function YacValue_9(k: nat): nat
  {
    match k
    case 144 => 0xe3 case 145 => 0xe4 case 146 => 0xe5 case 147 => 0xe6 case 148 => 0xe7 case 149 => 0xe8
    case 150 => 0xe9 case 151 => 0xea case 152 => 0xf1 case 153 => 0xf2 case 154 => 0xf3 case 155 => 0xf4
    case 156 => 0xf5 case 157 => 0xf6 case 158 => 0xf7 case _ => 0xf8
  }

  function YacValue_10(k: nat): nat
  {
    match k
    case 160 => 0xf9 case _ => 0xfa
  }

  /** Symbol k of the luminance AC table. */
  function YacValue(k: nat): nat
  {
    if k < 16 then YacValue_0(k)
    else if k < 32 then YacValue_1(k)
    else if k < 48 then YacValue_2(k)
    else if k < 64 then YacValue_3(k)
    else if k < 80 then YacValue_4(k)
    else if k < 96 then YacValue_5(k)
    else if k < 112 then YacValue_6(k)
    else if k < 128 then YacValue_7(k)
    else if k < 144 then YacValue_8(k)
    else if k < 160 then YacValue_9(k)
    else YacValue_10(k)
  }

  function UvacValue_0(k: nat): nat
  {
    match k
    case 0 => 0x00 case 1 => 0x01 case 2 => 0x02 case 3 => 0x03 case 4 => 0x11 case 5 => 0x04
    case 6 => 0x05 case 7 => 0x21 case 8 => 0x31 case 9 => 0x06 case 10 => 0x12 case 11 => 0x41
    case 12 => 0x51 case 13 => 0x07 case 14 => 0x61 case _ => 0x71
  }

  function UvacValue_1(k: nat): nat
  {
    match k
    case 16 => 0x13 case 17 => 0x22 case 18 => 0x32 case 19 => 0x81 case 20 => 0x08 case 21 => 0x14
    case 22 => 0x42 case 23 => 0x91 case 24 => 0xa1 case 25 => 0xb1 case 26 => 0xc1 case 27 => 0x09
    case 28 => 0x23 case 29 => 0x33 case 30 => 0x52 case _ => 0xf0
  }

  function UvacValue_2(k: nat): nat
  {
    match k
    case 32 => 0x15 case 33 => 0x62 case 34 => 0x72 case 35 => 0xd1 case 36 => 0x0a case 37 => 0x16
    case 38 => 0x24 case 39 => 0x34 case 40 => 0xe1 case 41 => 0x25 case 42 => 0xf1 case 43 => 0x17
    case 44 => 0x18 case 45 => 0x19 case 46 => 0x1a case _ => 0x26
  }

  function UvacValue_3(k: nat): nat
  {
    match k
    case 48 => 0x27 case 49 => 0x28 case 50 => 0x29 case 51 => 0x2a case 52 => 0x35 case 53 => 0x36
    case 54 => 0x37 case 55 => 0x38 case 56 => 0x39 case 57 => 0x3a case 58 => 0x43 case 59 => 0x44
    case 60 => 0x45 case 61 => 0x46 case 62 => 0x47 case _ => 0x48
  }

  function UvacValue_4(k: nat): nat
  {
    match k
    case 64 => 0x49 case 65 => 0x4a case 66 => 0x53 case 67 => 0x54 case 68 => 0x55 case 69 => 0x56
    case 70 => 0x57 case 71 => 0x58 case 72 => 0x59 case 73 => 0x5a case 74 => 0x63 case 75 => 0x64
    case 76 => 0x65 case 77 => 0x66 case 78 => 0x67 case _ => 0x68
  }

  function UvacValue_5(k: nat): nat
  {
    match k
    case 80 => 0x69 case 81 => 0x6a case 82 => 0x73 case 83 => 0x74 case 84 => 0x75 case 85 => 0x76
    case 86 => 0x77 case 87 => 0x78 case 88 => 0x79 case 89 => 0x7a case 90 => 0x82 case 91 => 0x83
    case 92 => 0x84 case 93 => 0x85 case 94 => 0x86 case _ => 0x87
  }

  function UvacValue_6(k: nat): nat
  {
    match k
    case 96 => 0x88 case 97 => 0x89 case 98 => 0x8a case 99 => 0x92 case 100 => 0x93 case 101 => 0x94
    case 102 => 0x95 case 103 => 0x96 case 104 => 0x97 case 105 => 0x98 case 106 => 0x99 case 107 => 0x9a
    case 108 => 0xa2 case 109 => 0xa3 case 110 => 0xa4 case _ => 0xa5
  }

  function UvacValue_7(k: nat): nat
  {
    match k
    case 112 => 0xa6 case 113 => 0xa7 case 114 => 0xa8 case 115 => 0xa9 case 116 => 0xaa case 117 => 0xb2
    case 118 => 0xb3 case 119 => 0xb4 case 120 => 0xb5 case 121 => 0xb6 case 122 => 0xb7 case 123 => 0xb8
    case 124 => 0xb9 case 125 => 0xba case 126 => 0xc2 case _ => 0xc3
  }

  function UvacValue_8(k: nat): nat
  {
    match k
    case 128 => 0xc4 case 129 => 0xc5 case 130 => 0xc6 case 131 => 0xc7 case 132 => 0xc8 case 133 => 0xc9
    case 134 => 0xca case 135 => 0xd2 case 136 => 0xd3 case 137 => 0xd4 case 138 => 0xd5 case 139 => 0xd6
    case 140 => 0xd7 case 141 => 0xd8 case 142 => 0xd9 case _ => 0xda
  }

  function UvacValue_9(k: nat): nat
  {
    match k
    case 144 => 0xe2 case 145 => 0xe3 case 146 => 0xe4 case 147 => 0xe5 case 148 => 0xe6 case 149 => 0xe7
    case 150 => 0xe8 case 151 => 0xe9 case 152 => 0xea case 153 => 0xf2 case 154 => 0xf3 case 155 => 0xf4
    case 156 => 0xf5 case 157 => 0xf6 case 158 => 0xf7 case _ => 0xf8
  }

  function UvacValue_10(k: nat): nat
  {
    match k
    case 160 => 0xf9 case _ => 0xfa
  }

  /** Symbol k of the chrominance AC table. */
  function UvacValue(k: nat): nat
  {
    if k < 16 then UvacValue_0(k)
    else if k < 32 then UvacValue_1(k)
    else if k < 48 then UvacValue_2(k)
    else if k < 64 then UvacValue_3(k)
    else if k < 80 then UvacValue_4(k)
    else if k < 96 then UvacValue_5(k)
    else if k < 112 then UvacValue_6(k)
    else if k < 128 then UvacValue_7(k)
    else if k < 144 then UvacValue_8(k)
    else if k < 160 then UvacValue_9(k)
    else UvacValue_10(k)
  }
}
