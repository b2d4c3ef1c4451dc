/**
 * The constant tables of the cipher, a function per table and per row of sixteen entries.
 */
module Tables {
  import opened Words

  /** The fixed permutation q0. */
  function P0(x: byte): byte {
    match x >> 4
    case 0x0 => P0Row0(x & 0x0F) case 0x1 => P0Row1(x & 0x0F) case 0x2 => P0Row2(x & 0x0F) case 0x3 => P0Row3(x & 0x0F)
    case 0x4 => P0Row4(x & 0x0F) case 0x5 => P0Row5(x & 0x0F) case 0x6 => P0Row6(x & 0x0F) case 0x7 => P0Row7(x & 0x0F)
    case 0x8 => P0Row8(x & 0x0F) case 0x9 => P0Row9(x & 0x0F) case 0xA => P0RowA(x & 0x0F) case 0xB => P0RowB(x & 0x0F)
    case 0xC => P0RowC(x & 0x0F) case 0xD => P0RowD(x & 0x0F) case 0xE => P0RowE(x & 0x0F) case _ => P0RowF(x & 0x0F)
  }

  function P0Row0(n: byte): byte {
    match n
    case 0x0 => 0xA9 case 0x1 => 0x67 case 0x2 => 0xB3 case 0x3 => 0xE8
    case 0x4 => 0x04 case 0x5 => 0xFD case 0x6 => 0xA3 case 0x7 => 0x76
    case 0x8 => 0x9A case 0x9 => 0x92 case 0xA => 0x80 case 0xB => 0x78
    case 0xC => 0xE4 case 0xD => 0xDD case 0xE => 0xD1 case _ => 0x38
  }

  function P0Row1(n: byte): byte {
    match n
    case 0x0 => 0x0D case 0x1 => 0xC6 case 0x2 => 0x35 case 0x3 => 0x98
    case 0x4 => 0x18 case 0x5 => 0xF7 case 0x6 => 0xEC case 0x7 => 0x6C
    case 0x8 => 0x43 case 0x9 => 0x75 case 0xA => 0x37 case 0xB => 0x26
    case 0xC => 0xFA case 0xD => 0x13 case 0xE => 0x94 case _ => 0x48
  }

  function P0Row2(n: byte): byte {
    match n
    case 0x0 => 0xF2 case 0x1 => 0xD0 case 0x2 => 0x8B case 0x3 => 0x30
    case 0x4 => 0x84 case 0x5 => 0x54 case 0x6 => 0xDF case 0x7 => 0x23
    case 0x8 => 0x19 case 0x9 => 0x5B case 0xA => 0x3D case 0xB => 0x59
    case 0xC => 0xF3 case 0xD => 0xAE case 0xE => 0xA2 case _ => 0x82
  }

  function P0Row3(n: byte): byte {
    match n
    case 0x0 => 0x63 case 0x1 => 0x01 case 0x2 => 0x83 case 0x3 => 0x2E
    case 0x4 => 0xD9 case 0x5 => 0x51 case 0x6 => 0x9B case 0x7 => 0x7C
    case 0x8 => 0xA6 case 0x9 => 0xEB case 0xA => 0xA5 case 0xB => 0xBE
    case 0xC => 0x16 case 0xD => 0x0C case 0xE => 0xE3 case _ => 0x61
  }

  function P0Row4(n: byte): byte {
    match n
    case 0x0 => 0xC0 case 0x1 => 0x8C case 0x2 => 0x3A case 0x3 => 0xF5
    case 0x4 => 0x73 case 0x5 => 0x2C case 0x6 => 0x25 case 0x7 => 0x0B
    case 0x8 => 0xBB case 0x9 => 0x4E case 0xA => 0x89 case 0xB => 0x6B
    case 0xC => 0x53 case 0xD => 0x6A case 0xE => 0xB4 case _ => 0xF1
  }

  function P0Row5(n: byte): byte {
    match n
    case 0x0 => 0xE1 case 0x1 => 0xE6 case 0x2 => 0xBD case 0x3 => 0x45
    case 0x4 => 0xE2 case 0x5 => 0xF4 case 0x6 => 0xB6 case 0x7 => 0x66
    case 0x8 => 0xCC case 0x9 => 0x95 case 0xA => 0x03 case 0xB => 0x56
    case 0xC => 0xD4 case 0xD => 0x1C case 0xE => 0x1E case _ => 0xD7
  }

  function P0Row6(n: byte): byte {
    match n
    case 0x0 => 0xFB case 0x1 => 0xC3 case 0x2 => 0x8E case 0x3 => 0xB5
    case 0x4 => 0xE9 case 0x5 => 0xCF case 0x6 => 0xBF case 0x7 => 0xBA
    case 0x8 => 0xEA case 0x9 => 0x77 case 0xA => 0x39 case 0xB => 0xAF
    case 0xC => 0x33 case 0xD => 0xC9 case 0xE => 0x62 case _ => 0x71
  }

  function P0Row7(n: byte): byte {
    match n
    case 0x0 => 0x81 case 0x1 => 0x79 case 0x2 => 0x09 case 0x3 => 0xAD
    case 0x4 => 0x24 case 0x5 => 0xCD case 0x6 => 0xF9 case 0x7 => 0xD8
    case 0x8 => 0xE5 case 0x9 => 0xC5 case 0xA => 0xB9 case 0xB => 0x4D
    case 0xC => 0x44 case 0xD => 0x08 case 0xE => 0x86 case _ => 0xE7
  }

  function P0Row8(n: byte): byte {
    match n
    case 0x0 => 0xA1 case 0x1 => 0x1D case 0x2 => 0xAA case 0x3 => 0xED
    case 0x4 => 0x06 case 0x5 => 0x70 case 0x6 => 0xB2 case 0x7 => 0xD2
    case 0x8 => 0x41 case 0x9 => 0x7B case 0xA => 0xA0 case 0xB => 0x11
    case 0xC => 0x31 case 0xD => 0xC2 case 0xE => 0x27 case _ => 0x90
  }

  function P0Row9(n: byte): byte {
    match n
    case 0x0 => 0x20 case 0x1 => 0xF6 case 0x2 => 0x60 case 0x3 => 0xFF
    case 0x4 => 0x96 case 0x5 => 0x5C case 0x6 => 0xB1 case 0x7 => 0xAB
    case 0x8 => 0x9E case 0x9 => 0x9C case 0xA => 0x52 case 0xB => 0x1B
    case 0xC => 0x5F case 0xD => 0x93 case 0xE => 0x0A case _ => 0xEF
  }

  function P0RowA(n: byte): byte {
    match n
    case 0x0 => 0x91 case 0x1 => 0x85 case 0x2 => 0x49 case 0x3 => 0xEE
    case 0x4 => 0x2D case 0x5 => 0x4F case 0x6 => 0x8F case 0x7 => 0x3B
    case 0x8 => 0x47 case 0x9 => 0x87 case 0xA => 0x6D case 0xB => 0x46
    case 0xC => 0xD6 case 0xD => 0x3E case 0xE => 0x69 case _ => 0x64
  }

  function P0RowB(n: byte): byte {
    match n
    case 0x0 => 0x2A case 0x1 => 0xCE case 0x2 => 0xCB case 0x3 => 0x2F
    case 0x4 => 0xFC case 0x5 => 0x97 case 0x6 => 0x05 case 0x7 => 0x7A
    case 0x8 => 0xAC case 0x9 => 0x7F case 0xA => 0xD5 case 0xB => 0x1A
    case 0xC => 0x4B case 0xD => 0x0E case 0xE => 0xA7 case _ => 0x5A
  }

  function P0RowC(n: byte): byte {
    match n
    case 0x0 => 0x28 case 0x1 => 0x14 case 0x2 => 0x3F case 0x3 => 0x29
    case 0x4 => 0x88 case 0x5 => 0x3C case 0x6 => 0x4C case 0x7 => 0x02
    case 0x8 => 0xB8 case 0x9 => 0xDA case 0xA => 0xB0 case 0xB => 0x17
    case 0xC => 0x55 case 0xD => 0x1F case 0xE => 0x8A case _ => 0x7D
  }

  function P0RowD(n: byte): byte {
    match n
    case 0x0 => 0x57 case 0x1 => 0xC7 case 0x2 => 0x8D case 0x3 => 0x74
    case 0x4 => 0xB7 case 0x5 => 0xC4 case 0x6 => 0x9F case 0x7 => 0x72
    case 0x8 => 0x7E case 0x9 => 0x15 case 0xA => 0x22 case 0xB => 0x12
    case 0xC => 0x58 case 0xD => 0x07 case 0xE => 0x99 case _ => 0x34
  }

  function P0RowE(n: byte): byte {
    match n
    case 0x0 => 0x6E case 0x1 => 0x50 case 0x2 => 0xDE case 0x3 => 0x68
    case 0x4 => 0x65 case 0x5 => 0xBC case 0x6 => 0xDB case 0x7 => 0xF8
    case 0x8 => 0xC8 case 0x9 => 0xA8 case 0xA => 0x2B case 0xB => 0x40
    case 0xC => 0xDC case 0xD => 0xFE case 0xE => 0x32 case _ => 0xA4
  }

  function P0RowF(n: byte): byte {
    match n
    case 0x0 => 0xCA case 0x1 => 0x10 case 0x2 => 0x21 case 0x3 => 0xF0
    case 0x4 => 0xD3 case 0x5 => 0x5D case 0x6 => 0x0F case 0x7 => 0x00
    case 0x8 => 0x6F case 0x9 => 0x9D case 0xA => 0x36 case 0xB => 0x42
    case 0xC => 0x4A case 0xD => 0x5E case 0xE => 0xC1 case _ => 0xE0
  }

  /** The fixed permutation q1. */
  function P1(x: byte): byte {
    match x >> 4
    case 0x0 => P1Row0(x & 0x0F) case 0x1 => P1Row1(x & 0x0F) case 0x2 => P1Row2(x & 0x0F) case 0x3 => P1Row3(x & 0x0F)
    case 0x4 => P1Row4(x & 0x0F) case 0x5 => P1Row5(x & 0x0F) case 0x6 => P1Row6(x & 0x0F) case 0x7 => P1Row7(x & 0x0F)
    case 0x8 => P1Row8(x & 0x0F) case 0x9 => P1Row9(x & 0x0F) case 0xA => P1RowA(x & 0x0F) case 0xB => P1RowB(x & 0x0F)
    case 0xC => P1RowC(x & 0x0F) case 0xD => P1RowD(x & 0x0F) case 0xE => P1RowE(x & 0x0F) case _ => P1RowF(x & 0x0F)
  }

  function P1Row0(n: byte): byte {
    match n
    case 0x0 => 0x75 case 0x1 => 0xF3 case 0x2 => 0xC6 case 0x3 => 0xF4
    case 0x4 => 0xDB case 0x5 => 0x7B case 0x6 => 0xFB case 0x7 => 0xC8
    case 0x8 => 0x4A case 0x9 => 0xD3 case 0xA => 0xE6 case 0xB => 0x6B
    case 0xC => 0x45 case 0xD => 0x7D case 0xE => 0xE8 case _ => 0x4B
  }

  function P1Row1(n: byte): byte {
    match n
    case 0x0 => 0xD6 case 0x1 => 0x32 case 0x2 => 0xD8 case 0x3 => 0xFD
    case 0x4 => 0x37 case 0x5 => 0x71 case 0x6 => 0xF1 case 0x7 => 0xE1
    case 0x8 => 0x30 case 0x9 => 0x0F case 0xA => 0xF8 case 0xB => 0x1B
    case 0xC => 0x87 case 0xD => 0xFA case 0xE => 0x06 case _ => 0x3F
  }

  function P1Row2(n: byte): byte {
    match n
    case 0x0 => 0x5E case 0x1 => 0xBA case 0x2 => 0xAE case 0x3 => 0x5B
    case 0x4 => 0x8A case 0x5 => 0x00 case 0x6 => 0xBC case 0x7 => 0x9D
    case 0x8 => 0x6D case 0x9 => 0xC1 case 0xA => 0xB1 case 0xB => 0x0E
    case 0xC => 0x80 case 0xD => 0x5D case 0xE => 0xD2 case _ => 0xD5
  }

  function P1Row3(n: byte): byte {
    match n
    case 0x0 => 0xA0 case 0x1 => 0x84 case 0x2 => 0x07 case 0x3 => 0x14
    case 0x4 => 0xB5 case 0x5 => 0x90 case 0x6 => 0x2C case 0x7 => 0xA3
    case 0x8 => 0xB2 case 0x9 => 0x73 case 0xA => 0x4C case 0xB => 0x54
    case 0xC => 0x92 case 0xD => 0x74 case 0xE => 0x36 case _ => 0x51
  }

  function P1Row4(n: byte): byte {
    match n
    case 0x0 => 0x38 case 0x1 => 0xB0 case 0x2 => 0xBD case 0x3 => 0x5A
    case 0x4 => 0xFC case 0x5 => 0x60 case 0x6 => 0x62 case 0x7 => 0x96
    case 0x8 => 0x6C case 0x9 => 0x42 case 0xA => 0xF7 case 0xB => 0x10
    case 0xC => 0x7C case 0xD => 0x28 case 0xE => 0x27 case _ => 0x8C
  }

  function P1Row5(n: byte): byte {
    match n
    case 0x0 => 0x13 case 0x1 => 0x95 case 0x2 => 0x9C case 0x3 => 0xC7
    case 0x4 => 0x24 case 0x5 => 0x46 case 0x6 => 0x3B case 0x7 => 0x70
    case 0x8 => 0xCA case 0x9 => 0xE3 case 0xA => 0x85 case 0xB => 0xCB
    case 0xC => 0x11 case 0xD => 0xD0 case 0xE => 0x93 case _ => 0xB8
  }

  function P1Row6(n: byte): byte {
    match n
    case 0x0 => 0xA6 case 0x1 => 0x83 case 0x2 => 0x20 case 0x3 => 0xFF
    case 0x4 => 0x9F case 0x5 => 0x77 case 0x6 => 0xC3 case 0x7 => 0xCC
    case 0x8 => 0x03 case 0x9 => 0x6F case 0xA => 0x08 case 0xB => 0xBF
    case 0xC => 0x40 case 0xD => 0xE7 case 0xE => 0x2B case _ => 0xE2
  }

  function P1Row7(n: byte): byte {
    match n
    case 0x0 => 0x79 case 0x1 => 0x0C case 0x2 => 0xAA case 0x3 => 0x82
    case 0x4 => 0x41 case 0x5 => 0x3A case 0x6 => 0xEA case 0x7 => 0xB9
    case 0x8 => 0xE4 case 0x9 => 0x9A case 0xA => 0xA4 case 0xB => 0x97
    case 0xC => 0x7E case 0xD => 0xDA case 0xE => 0x7A case _ => 0x17
  }

  function P1Row8(n: byte): byte {
    match n
    case 0x0 => 0x66 case 0x1 => 0x94 case 0x2 => 0xA1 case 0x3 => 0x1D
    case 0x4 => 0x3D case 0x5 => 0xF0 case 0x6 => 0xDE case 0x7 => 0xB3
    case 0x8 => 0x0B case 0x9 => 0x72 case 0xA => 0xA7 case 0xB => 0x1C
    case 0xC => 0xEF case 0xD => 0xD1 case 0xE => 0x53 case _ => 0x3E
  }

  function P1Row9(n: byte): byte {
    match n
    case 0x0 => 0x8F case 0x1 => 0x33 case 0x2 => 0x26 case 0x3 => 0x5F
    case 0x4 => 0xEC case 0x5 => 0x76 case 0x6 => 0x2A case 0x7 => 0x49
    case 0x8 => 0x81 case 0x9 => 0x88 case 0xA => 0xEE case 0xB => 0x21
    case 0xC => 0xC4 case 0xD => 0x1A case 0xE => 0xEB case _ => 0xD9
  }

  function P1RowA(n: byte): byte {
    match n
    case 0x0 => 0xC5 case 0x1 => 0x39 case 0x2 => 0x99 case 0x3 => 0xCD
    case 0x4 => 0xAD case 0x5 => 0x31 case 0x6 => 0x8B case 0x7 => 0x01
    case 0x8 => 0x18 case 0x9 => 0x23 case 0xA => 0xDD case 0xB => 0x1F
    case 0xC => 0x4E case 0xD => 0x2D case 0xE => 0xF9 case _ => 0x48
  }

  function P1RowB(n: byte): byte {
    match n
    case 0x0 => 0x4F case 0x1 => 0xF2 case 0x2 => 0x65 case 0x3 => 0x8E
    case 0x4 => 0x78 case 0x5 => 0x5C case 0x6 => 0x58 case 0x7 => 0x19
    case 0x8 => 0x8D case 0x9 => 0xE5 case 0xA => 0x98 case 0xB => 0x57
    case 0xC => 0x67 case 0xD => 0x7F case 0xE => 0x05 case _ => 0x64
  }

  function P1RowC(n: byte): byte {
    match n
    case 0x0 => 0xAF case 0x1 => 0x63 case 0x2 => 0xB6 case 0x3 => 0xFE
    case 0x4 => 0xF5 case 0x5 => 0xB7 case 0x6 => 0x3C case 0x7 => 0xA5
    case 0x8 => 0xCE case 0x9 => 0xE9 case 0xA => 0x68 case 0xB => 0x44
    case 0xC => 0xE0 case 0xD => 0x4D case 0xE => 0x43 case _ => 0x69
  }

  function P1RowD(n: byte): byte {
    match n
    case 0x0 => 0x29 case 0x1 => 0x2E case 0x2 => 0xAC case 0x3 => 0x15
    case 0x4 => 0x59 case 0x5 => 0xA8 case 0x6 => 0x0A case 0x7 => 0x9E
    case 0x8 => 0x6E case 0x9 => 0x47 case 0xA => 0xDF case 0xB => 0x34
    case 0xC => 0x35 case 0xD => 0x6A case 0xE => 0xCF case _ => 0xDC
  }

  function P1RowE(n: byte): byte {
    match n
    case 0x0 => 0x22 case 0x1 => 0xC9 case 0x2 => 0xC0 case 0x3 => 0x9B
    case 0x4 => 0x89 case 0x5 => 0xD4 case 0x6 => 0xED case 0x7 => 0xAB
    case 0x8 => 0x12 case 0x9 => 0xA2 case 0xA => 0x0D case 0xB => 0x52
    case 0xC => 0xBB case 0xD => 0x02 case 0xE => 0x2F case _ => 0xA9
  }

  function P1RowF(n: byte): byte {
    match n
    case 0x0 => 0xD7 case 0x1 => 0x61 case 0x2 => 0x1E case 0x3 => 0xB4
    case 0x4 => 0x50 case 0x5 => 0x04 case 0x6 => 0xF6 case 0x7 => 0xC2
    case 0x8 => 0x16 case 0x9 => 0x25 case 0xA => 0x86 case 0xB => 0x56
    case 0xC => 0x55 case 0xD => 0x09 case 0xE => 0xBE case _ => 0x91
  }

  /** Column 0 of the MDS matrix times q1. */
  function Mds0(x: byte): word {
    match x >> 4
    case 0x0 => Mds0Row0(x & 0x0F) case 0x1 => Mds0Row1(x & 0x0F)
    case 0x2 => Mds0Row2(x & 0x0F) case 0x3 => Mds0Row3(x & 0x0F)
    case 0x4 => Mds0Row4(x & 0x0F) case 0x5 => Mds0Row5(x & 0x0F)
    case 0x6 => Mds0Row6(x & 0x0F) case 0x7 => Mds0Row7(x & 0x0F)
    case 0x8 => Mds0Row8(x & 0x0F) case 0x9 => Mds0Row9(x & 0x0F)
    case 0xA => Mds0RowA(x & 0x0F) case 0xB => Mds0RowB(x & 0x0F)
    case 0xC => Mds0RowC(x & 0x0F) case 0xD => Mds0RowD(x & 0x0F)
    case 0xE => Mds0RowE(x & 0x0F) case _ => Mds0RowF(x & 0x0F)
  }

  function Mds0Row0(n: byte): word {
    match n
    case 0x0 => 0xBCBC3275 case 0x1 => 0xECEC21F3 case 0x2 => 0x202043C6 case 0x3 => 0xB3B3C9F4
    case 0x4 => 0xDADA03DB case 0x5 => 0x02028B7B case 0x6 => 0xE2E22BFB case 0x7 => 0x9E9EFAC8
    case 0x8 => 0xC9C9EC4A case 0x9 => 0xD4D409D3 case 0xA => 0x18186BE6 case 0xB => 0x1E1E9F6B
    case 0xC => 0x98980E45 case 0xD => 0xB2B2387D case 0xE => 0xA6A6D2E8 case _ => 0x2626B74B
  }

  function Mds0Row1(n: byte): word {
    match n
    case 0x0 => 0x3C3C57D6 case 0x1 => 0x93938A32 case 0x2 => 0x8282EED8 case 0x3 => 0x525298FD
    case 0x4 => 0x7B7BD437 case 0x5 => 0xBBBB3771 case 0x6 => 0x5B5B97F1 case 0x7 => 0x474783E1
    case 0x8 => 0x24243C30 case 0x9 => 0x5151E20F case 0xA => 0xBABAC6F8 case 0xB => 0x4A4AF31B
    case 0xC => 0xBFBF4887 case 0xD => 0x0D0D70FA case 0xE => 0xB0B0B306 case _ => 0x7575DE3F
  }

  function Mds0Row2(n: byte): word {
    match n
    case 0x0 => 0xD2D2FD5E case 0x1 => 0x7D7D20BA case 0x2 => 0x666631AE case 0x3 => 0x3A3AA35B
    case 0x4 => 0x59591C8A case 0x5 => 0x00000000 case 0x6 => 0xCDCD93BC case 0x7 => 0x1A1AE09D
    case 0x8 => 0xAEAE2C6D case 0x9 => 0x7F7FABC1 case 0xA => 0x2B2BC7B1 case 0xB => 0xBEBEB90E
    case 0xC => 0xE0E0A080 case 0xD => 0x8A8A105D case 0xE => 0x3B3B52D2 case _ => 0x6464BAD5
  }

  function Mds0Row3(n: byte): word {
    match n
    case 0x0 => 0xD8D888A0 case 0x1 => 0xE7E7A584 case 0x2 => 0x5F5FE807 case 0x3 => 0x1B1B1114
    case 0x4 => 0x2C2CC2B5 case 0x5 => 0xFCFCB490 case 0x6 => 0x3131272C case 0x7 => 0x808065A3
    case 0x8 => 0x73732AB2 case 0x9 => 0x0C0C8173 case 0xA => 0x79795F4C case 0xB => 0x6B6B4154
    case 0xC => 0x4B4B0292 case 0xD => 0x53536974 case 0xE => 0x94948F36 case _ => 0x83831F51
  }

  function Mds0Row4(n: byte): word {
    match n
    case 0x0 => 0x2A2A3638 case 0x1 => 0xC4C49CB0 case 0x2 => 0x2222C8BD case 0x3 => 0xD5D5F85A
    case 0x4 => 0xBDBDC3FC case 0x5 => 0x48487860 case 0x6 => 0xFFFFCE62 case 0x7 => 0x4C4C0796
    case 0x8 => 0x4141776C case 0x9 => 0xC7C7E642 case 0xA => 0xEBEB24F7 case 0xB => 0x1C1C1410
    case 0xC => 0x5D5D637C case 0xD => 0x36362228 case 0xE => 0x6767C027 case _ => 0xE9E9AF8C
  }

  function Mds0Row5(n: byte): word {
    match n
    case 0x0 => 0x4444F913 case 0x1 => 0x1414EA95 case 0x2 => 0xF5F5BB9C case 0x3 => 0xCFCF18C7
    case 0x4 => 0x3F3F2D24 case 0x5 => 0xC0C0E346 case 0x6 => 0x7272DB3B case 0x7 => 0x54546C70
    case 0x8 => 0x29294CCA case 0x9 => 0xF0F035E3 case 0xA => 0x0808FE85 case 0xB => 0xC6C617CB
    case 0xC => 0xF3F34F11 case 0xD => 0x8C8CE4D0 case 0xE => 0xA4A45993 case _ => 0xCACA96B8
  }

  function Mds0Row6(n: byte): word {
    match n
    case 0x0 => 0x68683BA6 case 0x1 => 0xB8B84D83 case 0x2 => 0x38382820 case 0x3 => 0xE5E52EFF
    case 0x4 => 0xADAD569F case 0x5 => 0x0B0B8477 case 0x6 => 0xC8C81DC3 case 0x7 => 0x9999FFCC
    case 0x8 => 0x5858ED03 case 0x9 => 0x19199A6F case 0xA => 0x0E0E0A08 case 0xB => 0x95957EBF
    case 0xC => 0x70705040 case 0xD => 0xF7F730E7 case 0xE => 0x6E6ECF2B case _ => 0x1F1F6EE2
  }

  function Mds0Row7(n: byte): word {
    match n
    case 0x0 => 0xB5B53D79 case 0x1 => 0x09090F0C case 0x2 => 0x616134AA case 0x3 => 0x57571682
    case 0x4 => 0x9F9F0B41 case 0x5 => 0x9D9D803A case 0x6 => 0x111164EA case 0x7 => 0x2525CDB9
    case 0x8 => 0xAFAFDDE4 case 0x9 => 0x4545089A case 0xA => 0xDFDF8DA4 case 0xB => 0xA3A35C97
    case 0xC => 0xEAEAD57E case 0xD => 0x353558DA case 0xE => 0xEDEDD07A case _ => 0x4343FC17
  }

  function Mds0Row8(n: byte): word {
    match n
    case 0x0 => 0xF8F8CB66 case 0x1 => 0xFBFBB194 case 0x2 => 0x3737D3A1 case 0x3 => 0xFAFA401D
    case 0x4 => 0xC2C2683D case 0x5 => 0xB4B4CCF0 case 0x6 => 0x32325DDE case 0x7 => 0x9C9C71B3
    case 0x8 => 0x5656E70B case 0x9 => 0xE3E3DA72 case 0xA => 0x878760A7 case 0xB => 0x15151B1C
    case 0xC => 0xF9F93AEF case 0xD => 0x6363BFD1 case 0xE => 0x3434A953 case _ => 0x9A9A853E
  }

  function Mds0Row9(n: byte): word {
    match n
    case 0x0 => 0xB1B1428F case 0x1 => 0x7C7CD133 case 0x2 => 0x88889B26 case 0x3 => 0x3D3DA65F
    case 0x4 => 0xA1A1D7EC case 0x5 => 0xE4E4DF76 case 0x6 => 0x8181942A case 0x7 => 0x91910149
    case 0x8 => 0x0F0FFB81 case 0x9 => 0xEEEEAA88 case 0xA => 0x161661EE case 0xB => 0xD7D77321
    case 0xC => 0x9797F5C4 case 0xD => 0xA5A5A81A case 0xE => 0xFEFE3FEB case _ => 0x6D6DB5D9
  }

  function Mds0RowA(n: byte): word {
    match n
    case 0x0 => 0x7878AEC5 case 0x1 => 0xC5C56D39 case 0x2 => 0x1D1DE599 case 0x3 => 0x7676A4CD
    case 0x4 => 0x3E3EDCAD case 0x5 => 0xCBCB6731 case 0x6 => 0xB6B6478B case 0x7 => 0xEFEF5B01
    case 0x8 => 0x12121E18 case 0x9 => 0x6060C523 case 0xA => 0x6A6AB0DD case 0xB => 0x4D4DF61F
    case 0xC => 0xCECEE94E case 0xD => 0xDEDE7C2D case 0xE => 0x55559DF9 case _ => 0x7E7E5A48
  }

  function Mds0RowB(n: byte): word {
    match n
    case 0x0 => 0x2121B24F case 0x1 => 0x03037AF2 case 0x2 => 0xA0A02665 case 0x3 => 0x5E5E198E
    case 0x4 => 0x5A5A6678 case 0x5 => 0x65654B5C case 0x6 => 0x62624E58 case 0x7 => 0xFDFD4519
    case 0x8 => 0x0606F48D case 0x9 => 0x404086E5 case 0xA => 0xF2F2BE98 case 0xB => 0x3333AC57
    case 0xC => 0x17179067 case 0xD => 0x05058E7F case 0xE => 0xE8E85E05 case _ => 0x4F4F7D64
  }

  function Mds0RowC(n: byte): word {
    match n
    case 0x0 => 0x89896AAF case 0x1 => 0x10109563 case 0x2 => 0x74742FB6 case 0x3 => 0x0A0A75FE
    case 0x4 => 0x5C5C92F5 case 0x5 => 0x9B9B74B7 case 0x6 => 0x2D2D333C case 0x7 => 0x3030D6A5
    case 0x8 => 0x2E2E49CE case 0x9 => 0x494989E9 case 0xA => 0x46467268 case 0xB => 0x77775544
    case 0xC => 0xA8A8D8E0 case 0xD => 0x9696044D case 0xE => 0x2828BD43 case _ => 0xA9A92969
  }

  function Mds0RowD(n: byte): word {
    match n
    case 0x0 => 0xD9D97929 case 0x1 => 0x8686912E case 0x2 => 0xD1D187AC case 0x3 => 0xF4F44A15
    case 0x4 => 0x8D8D1559 case 0x5 => 0xD6D682A8 case 0x6 => 0xB9B9BC0A case 0x7 => 0x42420D9E
    case 0x8 => 0xF6F6C16E case 0x9 => 0x2F2FB847 case 0xA => 0xDDDD06DF case 0xB => 0x23233934
    case 0xC => 0xCCCC6235 case 0xD => 0xF1F1C46A case 0xE => 0xC1C112CF case _ => 0x8585EBDC
  }

  function Mds0RowE(n: byte): word {
    match n
    case 0x0 => 0x8F8F9E22 case 0x1 => 0x7171A1C9 case 0x2 => 0x9090F0C0 case 0x3 => 0xAAAA539B
    case 0x4 => 0x0101F189 case 0x5 => 0x8B8BE1D4 case 0x6 => 0x4E4E8CED case 0x7 => 0x8E8E6FAB
    case 0x8 => 0xABABA212 case 0x9 => 0x6F6F3EA2 case 0xA => 0xE6E6540D case 0xB => 0xDBDBF252
    case 0xC => 0x92927BBB case 0xD => 0xB7B7B602 case 0xE => 0x6969CA2F case _ => 0x3939D9A9
  }

  function Mds0RowF(n: byte): word {
    match n
    case 0x0 => 0xD3D30CD7 case 0x1 => 0xA7A72361 case 0x2 => 0xA2A2AD1E case 0x3 => 0xC3C399B4
    case 0x4 => 0x6C6C4450 case 0x5 => 0x07070504 case 0x6 => 0x04047FF6 case 0x7 => 0x272746C2
    case 0x8 => 0xACACA716 case 0x9 => 0xD0D07625 case 0xA => 0x50501386 case 0xB => 0xDCDCF756
    case 0xC => 0x84841A55 case 0xD => 0xE1E15109 case 0xE => 0x7A7A25BE case _ => 0x1313EF91
  }

  /** Column 1 of the MDS matrix times q0. */
  function Mds1(x: byte): word {
    match x >> 4
    case 0x0 => Mds1Row0(x & 0x0F) case 0x1 => Mds1Row1(x & 0x0F)
    case 0x2 => Mds1Row2(x & 0x0F) case 0x3 => Mds1Row3(x & 0x0F)
    case 0x4 => Mds1Row4(x & 0x0F) case 0x5 => Mds1Row5(x & 0x0F)
    case 0x6 => Mds1Row6(x & 0x0F) case 0x7 => Mds1Row7(x & 0x0F)
    case 0x8 => Mds1Row8(x & 0x0F) case 0x9 => Mds1Row9(x & 0x0F)
    case 0xA => Mds1RowA(x & 0x0F) case 0xB => Mds1RowB(x & 0x0F)
    case 0xC => Mds1RowC(x & 0x0F) case 0xD => Mds1RowD(x & 0x0F)
    case 0xE => Mds1RowE(x & 0x0F) case _ => Mds1RowF(x & 0x0F)
  }

  function Mds1Row0(n: byte): word {
    match n
    case 0x0 => 0xA9D93939 case 0x1 => 0x67901717 case 0x2 => 0xB3719C9C case 0x3 => 0xE8D2A6A6
    case 0x4 => 0x04050707 case 0x5 => 0xFD985252 case 0x6 => 0xA3658080 case 0x7 => 0x76DFE4E4
    case 0x8 => 0x9A084545 case 0x9 => 0x92024B4B case 0xA => 0x80A0E0E0 case 0xB => 0x78665A5A
    case 0xC => 0xE4DDAFAF case 0xD => 0xDDB06A6A case 0xE => 0xD1BF6363 case _ => 0x38362A2A
  }

  function Mds1Row1(n: byte): word {
    match n
    case 0x0 => 0x0D54E6E6 case 0x1 => 0xC6432020 case 0x2 => 0x3562CCCC case 0x3 => 0x98BEF2F2
    case 0x4 => 0x181E1212 case 0x5 => 0xF724EBEB case 0x6 => 0xECD7A1A1 case 0x7 => 0x6C774141
    case 0x8 => 0x43BD2828 case 0x9 => 0x7532BCBC case 0xA => 0x37D47B7B case 0xB => 0x269B8888
    case 0xC => 0xFA700D0D case 0xD => 0x13F94444 case 0xE => 0x94B1FBFB case _ => 0x485A7E7E
  }

  function Mds1Row2(n: byte): word {
    match n
    case 0x0 => 0xF27A0303 case 0x1 => 0xD0E48C8C case 0x2 => 0x8B47B6B6 case 0x3 => 0x303C2424
    case 0x4 => 0x84A5E7E7 case 0x5 => 0x54416B6B case 0x6 => 0xDF06DDDD case 0x7 => 0x23C56060
    case 0x8 => 0x1945FDFD case 0x9 => 0x5BA33A3A case 0xA => 0x3D68C2C2 case 0xB => 0x59158D8D
    case 0xC => 0xF321ECEC case 0xD => 0xAE316666 case 0xE => 0xA23E6F6F case _ => 0x82165757
  }

  function Mds1Row3(n: byte): word {
    match n
    case 0x0 => 0x63951010 case 0x1 => 0x015BEFEF case 0x2 => 0x834DB8B8 case 0x3 => 0x2E918686
    case 0x4 => 0xD9B56D6D case 0x5 => 0x511F8383 case 0x6 => 0x9B53AAAA case 0x7 => 0x7C635D5D
    case 0x8 => 0xA63B6868 case 0x9 => 0xEB3FFEFE case 0xA => 0xA5D63030 case 0xB => 0xBE257A7A
    case 0xC => 0x16A7ACAC case 0xD => 0x0C0F0909 case 0xE => 0xE335F0F0 case _ => 0x6123A7A7
  }

  function Mds1Row4(n: byte): word {
    match n
    case 0x0 => 0xC0F09090 case 0x1 => 0x8CAFE9E9 case 0x2 => 0x3A809D9D case 0x3 => 0xF5925C5C
    case 0x4 => 0x73810C0C case 0x5 => 0x2C273131 case 0x6 => 0x2576D0D0 case 0x7 => 0x0BE75656
    case 0x8 => 0xBB7B9292 case 0x9 => 0x4EE9CECE case 0xA => 0x89F10101 case 0xB => 0x6B9F1E1E
    case 0xC => 0x53A93434 case 0xD => 0x6AC4F1F1 case 0xE => 0xB499C3C3 case _ => 0xF1975B5B
  }

  function Mds1Row5(n: byte): word {
    match n
    case 0x0 => 0xE1834747 case 0x1 => 0xE66B1818 case 0x2 => 0xBDC82222 case 0x3 => 0x450E9898
    case 0x4 => 0xE26E1F1F case 0x5 => 0xF4C9B3B3 case 0x6 => 0xB62F7474 case 0x7 => 0x66CBF8F8
    case 0x8 => 0xCCFF9999 case 0x9 => 0x95EA1414 case 0xA => 0x03ED5858 case 0xB => 0x56F7DCDC
    case 0xC => 0xD4E18B8B case 0xD => 0x1C1B1515 case 0xE => 0x1EADA2A2 case _ => 0xD70CD3D3
  }

  function Mds1Row6(n: byte): word {
    match n
    case 0x0 => 0xFB2BE2E2 case 0x1 => 0xC31DC8C8 case 0x2 => 0x8E195E5E case 0x3 => 0xB5C22C2C
    case 0x4 => 0xE9894949 case 0x5 => 0xCF12C1C1 case 0x6 => 0xBF7E9595 case 0x7 => 0xBA207D7D
    case 0x8 => 0xEA641111 case 0x9 => 0x77840B0B case 0xA => 0x396DC5C5 case 0xB => 0xAF6A8989
    case 0xC => 0x33D17C7C case 0xD => 0xC9A17171 case 0xE => 0x62CEFFFF case _ => 0x7137BBBB
  }

  function Mds1Row7(n: byte): word {
    match n
    case 0x0 => 0x81FB0F0F case 0x1 => 0x793DB5B5 case 0x2 => 0x0951E1E1 case 0x3 => 0xADDC3E3E
    case 0x4 => 0x242D3F3F case 0x5 => 0xCDA47676 case 0x6 => 0xF99D5555 case 0x7 => 0xD8EE8282
    case 0x8 => 0xE5864040 case 0x9 => 0xC5AE7878 case 0xA => 0xB9CD2525 case 0xB => 0x4D049696
    case 0xC => 0x44557777 case 0xD => 0x080A0E0E case 0xE => 0x86135050 case _ => 0xE730F7F7
  }

  function Mds1Row8(n: byte): word {
    match n
    case 0x0 => 0xA1D33737 case 0x1 => 0x1D40FAFA case 0x2 => 0xAA346161 case 0x3 => 0xED8C4E4E
    case 0x4 => 0x06B3B0B0 case 0x5 => 0x706C5454 case 0x6 => 0xB22A7373 case 0x7 => 0xD2523B3B
    case 0x8 => 0x410B9F9F case 0x9 => 0x7B8B0202 case 0xA => 0xA088D8D8 case 0xB => 0x114FF3F3
    case 0xC => 0x3167CBCB case 0xD => 0xC2462727 case 0xE => 0x27C06767 case _ => 0x90B4FCFC
  }

  function Mds1Row9(n: byte): word {
    match n
    case 0x0 => 0x20283838 case 0x1 => 0xF67F0404 case 0x2 => 0x60784848 case 0x3 => 0xFF2EE5E5
    case 0x4 => 0x96074C4C case 0x5 => 0x5C4B6565 case 0x6 => 0xB1C72B2B case 0x7 => 0xAB6F8E8E
    case 0x8 => 0x9E0D4242 case 0x9 => 0x9CBBF5F5 case 0xA => 0x52F2DBDB case 0xB => 0x1BF34A4A
    case 0xC => 0x5FA63D3D case 0xD => 0x9359A4A4 case 0xE => 0x0ABCB9B9 case _ => 0xEF3AF9F9
  }

  function Mds1RowA(n: byte): word {
    match n
    case 0x0 => 0x91EF1313 case 0x1 => 0x85FE0808 case 0x2 => 0x49019191 case 0x3 => 0xEE611616
    case 0x4 => 0x2D7CDEDE case 0x5 => 0x4FB22121 case 0x6 => 0x8F42B1B1 case 0x7 => 0x3BDB7272
    case 0x8 => 0x47B82F2F case 0x9 => 0x8748BFBF case 0xA => 0x6D2CAEAE case 0xB => 0x46E3C0C0
    case 0xC => 0xD6573C3C case 0xD => 0x3E859A9A case 0xE => 0x6929A9A9 case _ => 0x647D4F4F
  }

  function Mds1RowB(n: byte): word {
    match n
    case 0x0 => 0x2A948181 case 0x1 => 0xCE492E2E case 0x2 => 0xCB17C6C6 case 0x3 => 0x2FCA6969
    case 0x4 => 0xFCC3BDBD case 0x5 => 0x975CA3A3 case 0x6 => 0x055EE8E8 case 0x7 => 0x7AD0EDED
    case 0x8 => 0xAC87D1D1 case 0x9 => 0x7F8E0505 case 0xA => 0xD5BA6464 case 0xB => 0x1AA8A5A5
    case 0xC => 0x4BB72626 case 0xD => 0x0EB9BEBE case 0xE => 0xA7608787 case _ => 0x5AF8D5D5
  }

  function Mds1RowC(n: byte): word {
    match n
    case 0x0 => 0x28223636 case 0x1 => 0x14111B1B case 0x2 => 0x3FDE7575 case 0x3 => 0x2979D9D9
    case 0x4 => 0x88AAEEEE case 0x5 => 0x3C332D2D case 0x6 => 0x4C5F7979 case 0x7 => 0x02B6B7B7
    case 0x8 => 0xB896CACA case 0x9 => 0xDA583535 case 0xA => 0xB09CC4C4 case 0xB => 0x17FC4343
    case 0xC => 0x551A8484 case 0xD => 0x1FF64D4D case 0xE => 0x8A1C5959 case _ => 0x7D38B2B2
  }

  function Mds1RowD(n: byte): word {
    match n
    case 0x0 => 0x57AC3333 case 0x1 => 0xC718CFCF case 0x2 => 0x8DF40606 case 0x3 => 0x74695353
    case 0x4 => 0xB7749B9B case 0x5 => 0xC4F59797 case 0x6 => 0x9F56ADAD case 0x7 => 0x72DAE3E3
    case 0x8 => 0x7ED5EAEA case 0x9 => 0x154AF4F4 case 0xA => 0x229E8F8F case 0xB => 0x12A2ABAB
    case 0xC => 0x584E6262 case 0xD => 0x07E85F5F case 0xE => 0x99E51D1D case _ => 0x34392323
  }

  function Mds1RowE(n: byte): word {
    match n
    case 0x0 => 0x6EC1F6F6 case 0x1 => 0x50446C6C case 0x2 => 0xDE5D3232 case 0x3 => 0x68724646
    case 0x4 => 0x6526A0A0 case 0x5 => 0xBC93CDCD case 0x6 => 0xDB03DADA case 0x7 => 0xF8C6BABA
    case 0x8 => 0xC8FA9E9E case 0x9 => 0xA882D6D6 case 0xA => 0x2BCF6E6E case 0xB => 0x40507070
    case 0xC => 0xDCEB8585 case 0xD => 0xFE750A0A case 0xE => 0x328A9393 case _ => 0xA48DDFDF
  }

  function Mds1RowF(n: byte): word {
    match n
    case 0x0 => 0xCA4C2929 case 0x1 => 0x10141C1C case 0x2 => 0x2173D7D7 case 0x3 => 0xF0CCB4B4
    case 0x4 => 0xD309D4D4 case 0x5 => 0x5D108A8A case 0x6 => 0x0FE25151 case 0x7 => 0x00000000
    case 0x8 => 0x6F9A1919 case 0x9 => 0x9DE01A1A case 0xA => 0x368F9494 case 0xB => 0x42E6C7C7
    case 0xC => 0x4AECC9C9 case 0xD => 0x5EFDD2D2 case 0xE => 0xC1AB7F7F case _ => 0xE0D8A8A8
  }

  /** Column 2 of the MDS matrix times q1. */
  function Mds2(x: byte): word {
    match x >> 4
    case 0x0 => Mds2Row0(x & 0x0F) case 0x1 => Mds2Row1(x & 0x0F)
    case 0x2 => Mds2Row2(x & 0x0F) case 0x3 => Mds2Row3(x & 0x0F)
    case 0x4 => Mds2Row4(x & 0x0F) case 0x5 => Mds2Row5(x & 0x0F)
    case 0x6 => Mds2Row6(x & 0x0F) case 0x7 => Mds2Row7(x & 0x0F)
    case 0x8 => Mds2Row8(x & 0x0F) case 0x9 => Mds2Row9(x & 0x0F)
    case 0xA => Mds2RowA(x & 0x0F) case 0xB => Mds2RowB(x & 0x0F)
    case 0xC => Mds2RowC(x & 0x0F) case 0xD => Mds2RowD(x & 0x0F)
    case 0xE => Mds2RowE(x & 0x0F) case _ => Mds2RowF(x & 0x0F)
  }

  function Mds2Row0(n: byte): word {
    match n
    case 0x0 => 0xBC75BC32 case 0x1 => 0xECF3EC21 case 0x2 => 0x20C62043 case 0x3 => 0xB3F4B3C9
    case 0x4 => 0xDADBDA03 case 0x5 => 0x027B028B case 0x6 => 0xE2FBE22B case 0x7 => 0x9EC89EFA
    case 0x8 => 0xC94AC9EC case 0x9 => 0xD4D3D409 case 0xA => 0x18E6186B case 0xB => 0x1E6B1E9F
    case 0xC => 0x9845980E case 0xD => 0xB27DB238 case 0xE => 0xA6E8A6D2 case _ => 0x264B26B7
  }

  function Mds2Row1(n: byte): word {
    match n
    case 0x0 => 0x3CD63C57 case 0x1 => 0x9332938A case 0x2 => 0x82D882EE case 0x3 => 0x52FD5298
    case 0x4 => 0x7B377BD4 case 0x5 => 0xBB71BB37 case 0x6 => 0x5BF15B97 case 0x7 => 0x47E14783
    case 0x8 => 0x2430243C case 0x9 => 0x510F51E2 case 0xA => 0xBAF8BAC6 case 0xB => 0x4A1B4AF3
    case 0xC => 0xBF87BF48 case 0xD => 0x0DFA0D70 case 0xE => 0xB006B0B3 case _ => 0x753F75DE
  }

  function Mds2Row2(n: byte): word {
    match n
    case 0x0 => 0xD25ED2FD case 0x1 => 0x7DBA7D20 case 0x2 => 0x66AE6631 case 0x3 => 0x3A5B3AA3
    case 0x4 => 0x598A591C case 0x5 => 0x00000000 case 0x6 => 0xCDBCCD93 case 0x7 => 0x1A9D1AE0
    case 0x8 => 0xAE6DAE2C case 0x9 => 0x7FC17FAB case 0xA => 0x2BB12BC7 case 0xB => 0xBE0EBEB9
    case 0xC => 0xE080E0A0 case 0xD => 0x8A5D8A10 case 0xE => 0x3BD23B52 case _ => 0x64D564BA
  }

  function Mds2Row3(n: byte): word {
    match n
    case 0x0 => 0xD8A0D888 case 0x1 => 0xE784E7A5 case 0x2 => 0x5F075FE8 case 0x3 => 0x1B141B11
    case 0x4 => 0x2CB52CC2 case 0x5 => 0xFC90FCB4 case 0x6 => 0x312C3127 case 0x7 => 0x80A38065
    case 0x8 => 0x73B2732A case 0x9 => 0x0C730C81 case 0xA => 0x794C795F case 0xB => 0x6B546B41
    case 0xC => 0x4B924B02 case 0xD => 0x53745369 case 0xE => 0x9436948F case _ => 0x8351831F
  }

  function Mds2Row4(n: byte): word {
    match n
    case 0x0 => 0x2A382A36 case 0x1 => 0xC4B0C49C case 0x2 => 0x22BD22C8 case 0x3 => 0xD55AD5F8
    case 0x4 => 0xBDFCBDC3 case 0x5 => 0x48604878 case 0x6 => 0xFF62FFCE case 0x7 => 0x4C964C07
    case 0x8 => 0x416C4177 case 0x9 => 0xC742C7E6 case 0xA => 0xEBF7EB24 case 0xB => 0x1C101C14
    case 0xC => 0x5D7C5D63 case 0xD => 0x36283622 case 0xE => 0x672767C0 case _ => 0xE98CE9AF
  }

  function Mds2Row5(n: byte): word {
    match n
    case 0x0 => 0x441344F9 case 0x1 => 0x149514EA case 0x2 => 0xF59CF5BB case 0x3 => 0xCFC7CF18
    case 0x4 => 0x3F243F2D case 0x5 => 0xC046C0E3 case 0x6 => 0x723B72DB case 0x7 => 0x5470546C
    case 0x8 => 0x29CA294C case 0x9 => 0xF0E3F035 case 0xA => 0x088508FE case 0xB => 0xC6CBC617
    case 0xC => 0xF311F34F case 0xD => 0x8CD08CE4 case 0xE => 0xA493A459 case _ => 0xCAB8CA96
  }

  function Mds2Row6(n: byte): word {
    match n
    case 0x0 => 0x68A6683B case 0x1 => 0xB883B84D case 0x2 => 0x38203828 case 0x3 => 0xE5FFE52E
    case 0x4 => 0xAD9FAD56 case 0x5 => 0x0B770B84 case 0x6 => 0xC8C3C81D case 0x7 => 0x99CC99FF
    case 0x8 => 0x580358ED case 0x9 => 0x196F199A case 0xA => 0x0E080E0A case 0xB => 0x95BF957E
    case 0xC => 0x70407050 case 0xD => 0xF7E7F730 case 0xE => 0x6E2B6ECF case _ => 0x1FE21F6E
  }

  function Mds2Row7(n: byte): word {
    match n
    case 0x0 => 0xB579B53D case 0x1 => 0x090C090F case 0x2 => 0x61AA6134 case 0x3 => 0x57825716
    case 0x4 => 0x9F419F0B case 0x5 => 0x9D3A9D80 case 0x6 => 0x11EA1164 case 0x7 => 0x25B925CD
    case 0x8 => 0xAFE4AFDD case 0x9 => 0x459A4508 case 0xA => 0xDFA4DF8D case 0xB => 0xA397A35C
    case 0xC => 0xEA7EEAD5 case 0xD => 0x35DA3558 case 0xE => 0xED7AEDD0 case _ => 0x431743FC
  }

  function Mds2Row8(n: byte): word {
    match n
    case 0x0 => 0xF866F8CB case 0x1 => 0xFB94FBB1 case 0x2 => 0x37A137D3 case 0x3 => 0xFA1DFA40
    case 0x4 => 0xC23DC268 case 0x5 => 0xB4F0B4CC case 0x6 => 0x32DE325D case 0x7 => 0x9CB39C71
    case 0x8 => 0x560B56E7 case 0x9 => 0xE372E3DA case 0xA => 0x87A78760 case 0xB => 0x151C151B
    case 0xC => 0xF9EFF93A case 0xD => 0x63D163BF case 0xE => 0x345334A9 case _ => 0x9A3E9A85
  }

  function Mds2Row9(n: byte): word {
    match n
    case 0x0 => 0xB18FB142 case 0x1 => 0x7C337CD1 case 0x2 => 0x8826889B case 0x3 => 0x3D5F3DA6
    case 0x4 => 0xA1ECA1D7 case 0x5 => 0xE476E4DF case 0x6 => 0x812A8194 case 0x7 => 0x91499101
    case 0x8 => 0x0F810FFB case 0x9 => 0xEE88EEAA case 0xA => 0x16EE1661 case 0xB => 0xD721D773
    case 0xC => 0x97C497F5 case 0xD => 0xA51AA5A8 case 0xE => 0xFEEBFE3F case _ => 0x6DD96DB5
  }

  function Mds2RowA(n: byte): word {
    match n
    case 0x0 => 0x78C578AE case 0x1 => 0xC539C56D case 0x2 => 0x1D991DE5 case 0x3 => 0x76CD76A4
    case 0x4 => 0x3EAD3EDC case 0x5 => 0xCB31CB67 case 0x6 => 0xB68BB647 case 0x7 => 0xEF01EF5B
    case 0x8 => 0x1218121E case 0x9 => 0x602360C5 case 0xA => 0x6ADD6AB0 case 0xB => 0x4D1F4DF6
    case 0xC => 0xCE4ECEE9 case 0xD => 0xDE2DDE7C case 0xE => 0x55F9559D case _ => 0x7E487E5A
  }

  function Mds2RowB(n: byte): word {
    match n
    case 0x0 => 0x214F21B2 case 0x1 => 0x03F2037A case 0x2 => 0xA065A026 case 0x3 => 0x5E8E5E19
    case 0x4 => 0x5A785A66 case 0x5 => 0x655C654B case 0x6 => 0x6258624E case 0x7 => 0xFD19FD45
    case 0x8 => 0x068D06F4 case 0x9 => 0x40E54086 case 0xA => 0xF298F2BE case 0xB => 0x335733AC
    case 0xC => 0x17671790 case 0xD => 0x057F058E case 0xE => 0xE805E85E case _ => 0x4F644F7D
  }

  function Mds2RowC(n: byte): word {
    match n
    case 0x0 => 0x89AF896A case 0x1 => 0x10631095 case 0x2 => 0x74B6742F case 0x3 => 0x0AFE0A75
    case 0x4 => 0x5CF55C92 case 0x5 => 0x9BB79B74 case 0x6 => 0x2D3C2D33 case 0x7 => 0x30A530D6
    case 0x8 => 0x2ECE2E49 case 0x9 => 0x49E94989 case 0xA => 0x46684672 case 0xB => 0x77447755
    case 0xC => 0xA8E0A8D8 case 0xD => 0x964D9604 case 0xE => 0x284328BD case _ => 0xA969A929
  }

  function Mds2RowD(n: byte): word {
    match n
    case 0x0 => 0xD929D979 case 0x1 => 0x862E8691 case 0x2 => 0xD1ACD187 case 0x3 => 0xF415F44A
    case 0x4 => 0x8D598D15 case 0x5 => 0xD6A8D682 case 0x6 => 0xB90AB9BC case 0x7 => 0x429E420D
    case 0x8 => 0xF66EF6C1 case 0x9 => 0x2F472FB8 case 0xA => 0xDDDFDD06 case 0xB => 0x23342339
    case 0xC => 0xCC35CC62 case 0xD => 0xF16AF1C4 case 0xE => 0xC1CFC112 case _ => 0x85DC85EB
  }

  function Mds2RowE(n: byte): word {
    match n
    case 0x0 => 0x8F228F9E case 0x1 => 0x71C971A1 case 0x2 => 0x90C090F0 case 0x3 => 0xAA9BAA53
    case 0x4 => 0x018901F1 case 0x5 => 0x8BD48BE1 case 0x6 => 0x4EED4E8C case 0x7 => 0x8EAB8E6F
    case 0x8 => 0xAB12ABA2 case 0x9 => 0x6FA26F3E case 0xA => 0xE60DE654 case 0xB => 0xDB52DBF2
    case 0xC => 0x92BB927B case 0xD => 0xB702B7B6 case 0xE => 0x692F69CA case _ => 0x39A939D9
  }

  function Mds2RowF(n: byte): word {
    match n
    case 0x0 => 0xD3D7D30C case 0x1 => 0xA761A723 case 0x2 => 0xA21EA2AD case 0x3 => 0xC3B4C399
    case 0x4 => 0x6C506C44 case 0x5 => 0x07040705 case 0x6 => 0x04F6047F case 0x7 => 0x27C22746
    case 0x8 => 0xAC16ACA7 case 0x9 => 0xD025D076 case 0xA => 0x50865013 case 0xB => 0xDC56DCF7
    case 0xC => 0x8455841A case 0xD => 0xE109E151 case 0xE => 0x7ABE7A25 case _ => 0x139113EF
  }

  /** Column 3 of the MDS matrix times q0. */
  function Mds3(x: byte): word {
    match x >> 4
    case 0x0 => Mds3Row0(x & 0x0F) case 0x1 => Mds3Row1(x & 0x0F)
    case 0x2 => Mds3Row2(x & 0x0F) case 0x3 => Mds3Row3(x & 0x0F)
    case 0x4 => Mds3Row4(x & 0x0F) case 0x5 => Mds3Row5(x & 0x0F)
    case 0x6 => Mds3Row6(x & 0x0F) case 0x7 => Mds3Row7(x & 0x0F)
    case 0x8 => Mds3Row8(x & 0x0F) case 0x9 => Mds3Row9(x & 0x0F)
    case 0xA => Mds3RowA(x & 0x0F) case 0xB => Mds3RowB(x & 0x0F)
    case 0xC => Mds3RowC(x & 0x0F) case 0xD => Mds3RowD(x & 0x0F)
    case 0xE => Mds3RowE(x & 0x0F) case _ => Mds3RowF(x & 0x0F)
  }

  function Mds3Row0(n: byte): word {
    match n
    case 0x0 => 0xD939A9D9 case 0x1 => 0x90176790 case 0x2 => 0x719CB371 case 0x3 => 0xD2A6E8D2
    case 0x4 => 0x05070405 case 0x5 => 0x9852FD98 case 0x6 => 0x6580A365 case 0x7 => 0xDFE476DF
    case 0x8 => 0x08459A08 case 0x9 => 0x024B9202 case 0xA => 0xA0E080A0 case 0xB => 0x665A7866
    case 0xC => 0xDDAFE4DD case 0xD => 0xB06ADDB0 case 0xE => 0xBF63D1BF case _ => 0x362A3836
  }

  function Mds3Row1(n: byte): word {
    match n
    case 0x0 => 0x54E60D54 case 0x1 => 0x4320C643 case 0x2 => 0x62CC3562 case 0x3 => 0xBEF298BE
    case 0x4 => 0x1E12181E case 0x5 => 0x24EBF724 case 0x6 => 0xD7A1ECD7 case 0x7 => 0x77416C77
    case 0x8 => 0xBD2843BD case 0x9 => 0x32BC7532 case 0xA => 0xD47B37D4 case 0xB => 0x9B88269B
    case 0xC => 0x700DFA70 case 0xD => 0xF94413F9 case 0xE => 0xB1FB94B1 case _ => 0x5A7E485A
  }

  function Mds3Row2(n: byte): word {
    match n
    case 0x0 => 0x7A03F27A case 0x1 => 0xE48CD0E4 case 0x2 => 0x47B68B47 case 0x3 => 0x3C24303C
    case 0x4 => 0xA5E784A5 case 0x5 => 0x416B5441 case 0x6 => 0x06DDDF06 case 0x7 => 0xC56023C5
    case 0x8 => 0x45FD1945 case 0x9 => 0xA33A5BA3 case 0xA => 0x68C23D68 case 0xB => 0x158D5915
    case 0xC => 0x21ECF321 case 0xD => 0x3166AE31 case 0xE => 0x3E6FA23E case _ => 0x16578216
  }

  function Mds3Row3(n: byte): word {
    match n
    case 0x0 => 0x95106395 case 0x1 => 0x5BEF015B case 0x2 => 0x4DB8834D case 0x3 => 0x91862E91
    case 0x4 => 0xB56DD9B5 case 0x5 => 0x1F83511F case 0x6 => 0x53AA9B53 case 0x7 => 0x635D7C63
    case 0x8 => 0x3B68A63B case 0x9 => 0x3FFEEB3F case 0xA => 0xD630A5D6 case 0xB => 0x257ABE25
    case 0xC => 0xA7AC16A7 case 0xD => 0x0F090C0F case 0xE => 0x35F0E335 case _ => 0x23A76123
  }

  function Mds3Row4(n: byte): word {
    match n
    case 0x0 => 0xF090C0F0 case 0x1 => 0xAFE98CAF case 0x2 => 0x809D3A80 case 0x3 => 0x925CF592
    case 0x4 => 0x810C7381 case 0x5 => 0x27312C27 case 0x6 => 0x76D02576 case 0x7 => 0xE7560BE7
    case 0x8 => 0x7B92BB7B case 0x9 => 0xE9CE4EE9 case 0xA => 0xF10189F1 case 0xB => 0x9F1E6B9F
    case 0xC => 0xA93453A9 case 0xD => 0xC4F16AC4 case 0xE => 0x99C3B499 case _ => 0x975BF197
  }

  function Mds3Row5(n: byte): word {
    match n
    case 0x0 => 0x8347E183 case 0x1 => 0x6B18E66B case 0x2 => 0xC822BDC8 case 0x3 => 0x0E98450E
    case 0x4 => 0x6E1FE26E case 0x5 => 0xC9B3F4C9 case 0x6 => 0x2F74B62F case 0x7 => 0xCBF866CB
    case 0x8 => 0xFF99CCFF case 0x9 => 0xEA1495EA case 0xA => 0xED5803ED case 0xB => 0xF7DC56F7
    case 0xC => 0xE18BD4E1 case 0xD => 0x1B151C1B case 0xE => 0xADA21EAD case _ => 0x0CD3D70C
  }

  function Mds3Row6(n: byte): word {
    match n
    case 0x0 => 0x2BE2FB2B case 0x1 => 0x1DC8C31D case 0x2 => 0x195E8E19 case 0x3 => 0xC22CB5C2
    case 0x4 => 0x8949E989 case 0x5 => 0x12C1CF12 case 0x6 => 0x7E95BF7E case 0x7 => 0x207DBA20
    case 0x8 => 0x6411EA64 case 0x9 => 0x840B7784 case 0xA => 0x6DC5396D case 0xB => 0x6A89AF6A
    case 0xC => 0xD17C33D1 case 0xD => 0xA171C9A1 case 0xE => 0xCEFF62CE case _ => 0x37BB7137
  }

  function Mds3Row7(n: byte): word {
    match n
    case 0x0 => 0xFB0F81FB case 0x1 => 0x3DB5793D case 0x2 => 0x51E10951 case 0x3 => 0xDC3EADDC
    case 0x4 => 0x2D3F242D case 0x5 => 0xA476CDA4 case 0x6 => 0x9D55F99D case 0x7 => 0xEE82D8EE
    case 0x8 => 0x8640E586 case 0x9 => 0xAE78C5AE case 0xA => 0xCD25B9CD case 0xB => 0x04964D04
    case 0xC => 0x55774455 case 0xD => 0x0A0E080A case 0xE => 0x13508613 case _ => 0x30F7E730
  }

  function Mds3Row8(n: byte): word {
    match n
    case 0x0 => 0xD337A1D3 case 0x1 => 0x40FA1D40 case 0x2 => 0x3461AA34 case 0x3 => 0x8C4EED8C
    case 0x4 => 0xB3B006B3 case 0x5 => 0x6C54706C case 0x6 => 0x2A73B22A case 0x7 => 0x523BD252
    case 0x8 => 0x0B9F410B case 0x9 => 0x8B027B8B case 0xA => 0x88D8A088 case 0xB => 0x4FF3114F
    case 0xC => 0x67CB3167 case 0xD => 0x4627C246 case 0xE => 0xC06727C0 case _ => 0xB4FC90B4
  }

  function Mds3Row9(n: byte): word {
    match n
    case 0x0 => 0x28382028 case 0x1 => 0x7F04F67F case 0x2 => 0x78486078 case 0x3 => 0x2EE5FF2E
    case 0x4 => 0x074C9607 case 0x5 => 0x4B655C4B case 0x6 => 0xC72BB1C7 case 0x7 => 0x6F8EAB6F
    case 0x8 => 0x0D429E0D case 0x9 => 0xBBF59CBB case 0xA => 0xF2DB52F2 case 0xB => 0xF34A1BF3
    case 0xC => 0xA63D5FA6 case 0xD => 0x59A49359 case 0xE => 0xBCB90ABC case _ => 0x3AF9EF3A
  }

  function Mds3RowA(n: byte): word {
    match n
    case 0x0 => 0xEF1391EF case 0x1 => 0xFE0885FE case 0x2 => 0x01914901 case 0x3 => 0x6116EE61
    case 0x4 => 0x7CDE2D7C case 0x5 => 0xB2214FB2 case 0x6 => 0x42B18F42 case 0x7 => 0xDB723BDB
    case 0x8 => 0xB82F47B8 case 0x9 => 0x48BF8748 case 0xA => 0x2CAE6D2C case 0xB => 0xE3C046E3
    case 0xC => 0x573CD657 case 0xD => 0x859A3E85 case 0xE => 0x29A96929 case _ => 0x7D4F647D
  }

  function Mds3RowB(n: byte): word {
    match n
    case 0x0 => 0x94812A94 case 0x1 => 0x492ECE49 case 0x2 => 0x17C6CB17 case 0x3 => 0xCA692FCA
    case 0x4 => 0xC3BDFCC3 case 0x5 => 0x5CA3975C case 0x6 => 0x5EE8055E case 0x7 => 0xD0ED7AD0
    case 0x8 => 0x87D1AC87 case 0x9 => 0x8E057F8E case 0xA => 0xBA64D5BA case 0xB => 0xA8A51AA8
    case 0xC => 0xB7264BB7 case 0xD => 0xB9BE0EB9 case 0xE => 0x6087A760 case _ => 0xF8D55AF8
  }

  function Mds3RowC(n: byte): word {
    match n
    case 0x0 => 0x22362822 case 0x1 => 0x111B1411 case 0x2 => 0xDE753FDE case 0x3 => 0x79D92979
    case 0x4 => 0xAAEE88AA case 0x5 => 0x332D3C33 case 0x6 => 0x5F794C5F case 0x7 => 0xB6B702B6
    case 0x8 => 0x96CAB896 case 0x9 => 0x5835DA58 case 0xA => 0x9CC4B09C case 0xB => 0xFC4317FC
    case 0xC => 0x1A84551A case 0xD => 0xF64D1FF6 case 0xE => 0x1C598A1C case _ => 0x38B27D38
  }

  function Mds3RowD(n: byte): word {
    match n
    case 0x0 => 0xAC3357AC case 0x1 => 0x18CFC718 case 0x2 => 0xF4068DF4 case 0x3 => 0x69537469
    case 0x4 => 0x749BB774 case 0x5 => 0xF597C4F5 case 0x6 => 0x56AD9F56 case 0x7 => 0xDAE372DA
    case 0x8 => 0xD5EA7ED5 case 0x9 => 0x4AF4154A case 0xA => 0x9E8F229E case 0xB => 0xA2AB12A2
    case 0xC => 0x4E62584E case 0xD => 0xE85F07E8 case 0xE => 0xE51D99E5 case _ => 0x39233439
  }

  function Mds3RowE(n: byte): word {
    match n
    case 0x0 => 0xC1F66EC1 case 0x1 => 0x446C5044 case 0x2 => 0x5D32DE5D case 0x3 => 0x72466872
    case 0x4 => 0x26A06526 case 0x5 => 0x93CDBC93 case 0x6 => 0x03DADB03 case 0x7 => 0xC6BAF8C6
    case 0x8 => 0xFA9EC8FA case 0x9 => 0x82D6A882 case 0xA => 0xCF6E2BCF case 0xB => 0x50704050
    case 0xC => 0xEB85DCEB case 0xD => 0x750AFE75 case 0xE => 0x8A93328A case _ => 0x8DDFA48D
  }

  function Mds3RowF(n: byte): word {
    match n
    case 0x0 => 0x4C29CA4C case 0x1 => 0x141C1014 case 0x2 => 0x73D72173 case 0x3 => 0xCCB4F0CC
    case 0x4 => 0x09D4D309 case 0x5 => 0x108A5D10 case 0x6 => 0xE2510FE2 case 0x7 => 0x00000000
    case 0x8 => 0x9A196F9A case 0x9 => 0xE01A9DE0 case 0xA => 0x8F94368F case 0xB => 0xE6C742E6
    case 0xC => 0xECC94AEC case 0xD => 0xFDD25EFD case 0xE => 0xAB7FC1AB case _ => 0xD8A8E0D8
  }
}
