/** The CRC of lib/libucsi/crc32.h with the table of lib/libucsi/crc32.c, against the bit-serial
    CRC decoder model of ISO/IEC 13818-1 Annex A. A bv32 is a polynomial over two elements. */
module Crc32 {

  const POLYNOMIAL: bv32 := 0x04C1_1DB7

  const CRC32_INIT: bv32 := 0xFFFF_FFFF

  /** Addition of polynomials, multiplication by x without the carry, and the carry. */
  function Plus(a: bv32, b: bv32): bv32 { a ^ b }

  function TimesX(a: bv32): bv32 { a << 1 }

  predicate Carry(a: bv32) { a & 0x8000_0000 != 0 }

  /** An octet as the leading terms of a polynomial. */
  function Top(b: bv8): bv32 { (b as bv32) << 24 }

  // ---------------------------------------------------------------- the reference: one bit at a time

  /** The shift register takes in one bit: subtract the polynomial when the bit that falls out
      differs from it. */
  function ClockBit(crc: bv32, bit: bool): bv32 {
    if Carry(crc) != bit then Plus(TimesX(crc), POLYNOMIAL) else TimesX(crc)
  }

  function Divide(crc: bv32, bits: seq<bool>): bv32
    decreases |bits|
  {
    if bits == [] then crc else Divide(ClockBit(crc, bits[0]), bits[1..])
  }

  /** The bits of an octet, the most significant one first. */
  function Bits(b: bv8): (bits: seq<bool>)
    ensures |bits| == 8
  {
    [b & 0x80 != 0, b & 0x40 != 0, b & 0x20 != 0, b & 0x10 != 0, b & 0x08 != 0, b & 0x04 != 0, b & 0x02 != 0, b & 0x01 != 0]
  }

  function AllBits(buf: seq<bv8>): seq<bool> {
    if buf == [] then [] else Bits(buf[0]) + AllBits(buf[1..])
  }

  // ---------------------------------------------------------------- the table

  /** Multiplication by x, x^2, x^4 and x^8 modulo the polynomial. */
  function Shift1(c: bv32): bv32 { if Carry(c) then Plus(TimesX(c), POLYNOMIAL) else TimesX(c) }

  function Shift2(c: bv32): bv32 { Shift1(Shift1(c)) }

  function Shift4(c: bv32): bv32 { Shift2(Shift2(c)) }

  function Shift8(c: bv32): bv32 { Shift4(Shift4(c)) }

  /** crc32tbl, entries 0x00 to 0x1F. */
  function Entries00(i: bv8): (r: bv32)
    requires i >> 5 == 0
    ensures r == Shift8(Top(i))
  {
    if i == 0x00 then 0x0000_0000 else if i == 0x01 then 0x04C1_1DB7 else if i == 0x02 then 0x0982_3B6E else if i == 0x03 then 0x0D43_26D9 else
    if i == 0x04 then 0x1304_76DC else if i == 0x05 then 0x17C5_6B6B else if i == 0x06 then 0x1A86_4DB2 else if i == 0x07 then 0x1E47_5005 else
    if i == 0x08 then 0x2608_EDB8 else if i == 0x09 then 0x22C9_F00F else if i == 0x0A then 0x2F8A_D6D6 else if i == 0x0B then 0x2B4B_CB61 else
    if i == 0x0C then 0x350C_9B64 else if i == 0x0D then 0x31CD_86D3 else if i == 0x0E then 0x3C8E_A00A else if i == 0x0F then 0x384F_BDBD else
    if i == 0x10 then 0x4C11_DB70 else if i == 0x11 then 0x48D0_C6C7 else if i == 0x12 then 0x4593_E01E else if i == 0x13 then 0x4152_FDA9 else
    if i == 0x14 then 0x5F15_ADAC else if i == 0x15 then 0x5BD4_B01B else if i == 0x16 then 0x5697_96C2 else if i == 0x17 then 0x5256_8B75 else
    if i == 0x18 then 0x6A19_36C8 else if i == 0x19 then 0x6ED8_2B7F else if i == 0x1A then 0x639B_0DA6 else if i == 0x1B then 0x675A_1011 else
    if i == 0x1C then 0x791D_4014 else if i == 0x1D then 0x7DDC_5DA3 else if i == 0x1E then 0x709F_7B7A else 0x745E_66CD
  }

  /** crc32tbl, entries 0x20 to 0x3F. */
  function Entries20(i: bv8): (r: bv32)
    requires i >> 5 == 1
    ensures r == Shift8(Top(i))
  {
    if i == 0x20 then 0x9823_B6E0 else if i == 0x21 then 0x9CE2_AB57 else if i == 0x22 then 0x91A1_8D8E else if i == 0x23 then 0x9560_9039 else
    if i == 0x24 then 0x8B27_C03C else if i == 0x25 then 0x8FE6_DD8B else if i == 0x26 then 0x82A5_FB52 else if i == 0x27 then 0x8664_E6E5 else
    if i == 0x28 then 0xBE2B_5B58 else if i == 0x29 then 0xBAEA_46EF else if i == 0x2A then 0xB7A9_6036 else if i == 0x2B then 0xB368_7D81 else
    if i == 0x2C then 0xAD2F_2D84 else if i == 0x2D then 0xA9EE_3033 else if i == 0x2E then 0xA4AD_16EA else if i == 0x2F then 0xA06C_0B5D else
    if i == 0x30 then 0xD432_6D90 else if i == 0x31 then 0xD0F3_7027 else if i == 0x32 then 0xDDB0_56FE else if i == 0x33 then 0xD971_4B49 else
    if i == 0x34 then 0xC736_1B4C else if i == 0x35 then 0xC3F7_06FB else if i == 0x36 then 0xCEB4_2022 else if i == 0x37 then 0xCA75_3D95 else
    if i == 0x38 then 0xF23A_8028 else if i == 0x39 then 0xF6FB_9D9F else if i == 0x3A then 0xFBB8_BB46 else if i == 0x3B then 0xFF79_A6F1 else
    if i == 0x3C then 0xE13E_F6F4 else if i == 0x3D then 0xE5FF_EB43 else if i == 0x3E then 0xE8BC_CD9A else 0xEC7D_D02D
  }

  /** crc32tbl, entries 0x40 to 0x5F. */
  function Entries40(i: bv8): (r: bv32)
    requires i >> 5 == 2
    ensures r == Shift8(Top(i))
  {
    if i == 0x40 then 0x3486_7077 else if i == 0x41 then 0x3047_6DC0 else if i == 0x42 then 0x3D04_4B19 else if i == 0x43 then 0x39C5_56AE else
    if i == 0x44 then 0x2782_06AB else if i == 0x45 then 0x2343_1B1C else if i == 0x46 then 0x2E00_3DC5 else if i == 0x47 then 0x2AC1_2072 else
    if i == 0x48 then 0x128E_9DCF else if i == 0x49 then 0x164F_8078 else if i == 0x4A then 0x1B0C_A6A1 else if i == 0x4B then 0x1FCD_BB16 else
    if i == 0x4C then 0x018A_EB13 else if i == 0x4D then 0x054B_F6A4 else if i == 0x4E then 0x0808_D07D else if i == 0x4F then 0x0CC9_CDCA else
    if i == 0x50 then 0x7897_AB07 else if i == 0x51 then 0x7C56_B6B0 else if i == 0x52 then 0x7115_9069 else if i == 0x53 then 0x75D4_8DDE else
    if i == 0x54 then 0x6B93_DDDB else if i == 0x55 then 0x6F52_C06C else if i == 0x56 then 0x6211_E6B5 else if i == 0x57 then 0x66D0_FB02 else
    if i == 0x58 then 0x5E9F_46BF else if i == 0x59 then 0x5A5E_5B08 else if i == 0x5A then 0x571D_7DD1 else if i == 0x5B then 0x53DC_6066 else
    if i == 0x5C then 0x4D9B_3063 else if i == 0x5D then 0x495A_2DD4 else if i == 0x5E then 0x4419_0B0D else 0x40D8_16BA
  }

  /** crc32tbl, entries 0x60 to 0x7F. */
  function Entries60(i: bv8): (r: bv32)
    requires i >> 5 == 3
    ensures r == Shift8(Top(i))
  {
    if i == 0x60 then 0xACA5_C697 else if i == 0x61 then 0xA864_DB20 else if i == 0x62 then 0xA527_FDF9 else if i == 0x63 then 0xA1E6_E04E else
    if i == 0x64 then 0xBFA1_B04B else if i == 0x65 then 0xBB60_ADFC else if i == 0x66 then 0xB623_8B25 else if i == 0x67 then 0xB2E2_9692 else
    if i == 0x68 then 0x8AAD_2B2F else if i == 0x69 then 0x8E6C_3698 else if i == 0x6A then 0x832F_1041 else if i == 0x6B then 0x87EE_0DF6 else
    if i == 0x6C then 0x99A9_5DF3 else if i == 0x6D then 0x9D68_4044 else if i == 0x6E then 0x902B_669D else if i == 0x6F then 0x94EA_7B2A else
    if i == 0x70 then 0xE0B4_1DE7 else if i == 0x71 then 0xE475_0050 else if i == 0x72 then 0xE936_2689 else if i == 0x73 then 0xEDF7_3B3E else
    if i == 0x74 then 0xF3B0_6B3B else if i == 0x75 then 0xF771_768C else if i == 0x76 then 0xFA32_5055 else if i == 0x77 then 0xFEF3_4DE2 else
    if i == 0x78 then 0xC6BC_F05F else if i == 0x79 then 0xC27D_EDE8 else if i == 0x7A then 0xCF3E_CB31 else if i == 0x7B then 0xCBFF_D686 else
    if i == 0x7C then 0xD5B8_8683 else if i == 0x7D then 0xD179_9B34 else if i == 0x7E then 0xDC3A_BDED else 0xD8FB_A05A
  }

  /** crc32tbl, entries 0x80 to 0x9F. */
  function Entries80(i: bv8): (r: bv32)
    requires i >> 5 == 4
    ensures r == Shift8(Top(i))
  {
    if i == 0x80 then 0x690C_E0EE else if i == 0x81 then 0x6DCD_FD59 else if i == 0x82 then 0x608E_DB80 else if i == 0x83 then 0x644F_C637 else
    if i == 0x84 then 0x7A08_9632 else if i == 0x85 then 0x7EC9_8B85 else if i == 0x86 then 0x738A_AD5C else if i == 0x87 then 0x774B_B0EB else
    if i == 0x88 then 0x4F04_0D56 else if i == 0x89 then 0x4BC5_10E1 else if i == 0x8A then 0x4686_3638 else if i == 0x8B then 0x4247_2B8F else
    if i == 0x8C then 0x5C00_7B8A else if i == 0x8D then 0x58C1_663D else if i == 0x8E then 0x5582_40E4 else if i == 0x8F then 0x5143_5D53 else
    if i == 0x90 then 0x251D_3B9E else if i == 0x91 then 0x21DC_2629 else if i == 0x92 then 0x2C9F_00F0 else if i == 0x93 then 0x285E_1D47 else
    if i == 0x94 then 0x3619_4D42 else if i == 0x95 then 0x32D8_50F5 else if i == 0x96 then 0x3F9B_762C else if i == 0x97 then 0x3B5A_6B9B else
    if i == 0x98 then 0x0315_D626 else if i == 0x99 then 0x07D4_CB91 else if i == 0x9A then 0x0A97_ED48 else if i == 0x9B then 0x0E56_F0FF else
    if i == 0x9C then 0x1011_A0FA else if i == 0x9D then 0x14D0_BD4D else if i == 0x9E then 0x1993_9B94 else 0x1D52_8623
  }

  /** crc32tbl, entries 0xA0 to 0xBF. */
  function EntriesA0(i: bv8): (r: bv32)
    requires i >> 5 == 5
    ensures r == Shift8(Top(i))
  {
    if i == 0xA0 then 0xF12F_560E else if i == 0xA1 then 0xF5EE_4BB9 else if i == 0xA2 then 0xF8AD_6D60 else if i == 0xA3 then 0xFC6C_70D7 else
    if i == 0xA4 then 0xE22B_20D2 else if i == 0xA5 then 0xE6EA_3D65 else if i == 0xA6 then 0xEBA9_1BBC else if i == 0xA7 then 0xEF68_060B else
    if i == 0xA8 then 0xD727_BBB6 else if i == 0xA9 then 0xD3E6_A601 else if i == 0xAA then 0xDEA5_80D8 else if i == 0xAB then 0xDA64_9D6F else
    if i == 0xAC then 0xC423_CD6A else if i == 0xAD then 0xC0E2_D0DD else if i == 0xAE then 0xCDA1_F604 else if i == 0xAF then 0xC960_EBB3 else
    if i == 0xB0 then 0xBD3E_8D7E else if i == 0xB1 then 0xB9FF_90C9 else if i == 0xB2 then 0xB4BC_B610 else if i == 0xB3 then 0xB07D_ABA7 else
    if i == 0xB4 then 0xAE3A_FBA2 else if i == 0xB5 then 0xAAFB_E615 else if i == 0xB6 then 0xA7B8_C0CC else if i == 0xB7 then 0xA379_DD7B else
    if i == 0xB8 then 0x9B36_60C6 else if i == 0xB9 then 0x9FF7_7D71 else if i == 0xBA then 0x92B4_5BA8 else if i == 0xBB then 0x9675_461F else
    if i == 0xBC then 0x8832_161A else if i == 0xBD then 0x8CF3_0BAD else if i == 0xBE then 0x81B0_2D74 else 0x8571_30C3
  }

  /** crc32tbl, entries 0xC0 to 0xDF. */
  function EntriesC0(i: bv8): (r: bv32)
    requires i >> 5 == 6
    ensures r == Shift8(Top(i))
  {
    if i == 0xC0 then 0x5D8A_9099 else if i == 0xC1 then 0x594B_8D2E else if i == 0xC2 then 0x5408_ABF7 else if i == 0xC3 then 0x50C9_B640 else
    if i == 0xC4 then 0x4E8E_E645 else if i == 0xC5 then 0x4A4F_FBF2 else if i == 0xC6 then 0x470C_DD2B else if i == 0xC7 then 0x43CD_C09C else
    if i == 0xC8 then 0x7B82_7D21 else if i == 0xC9 then 0x7F43_6096 else if i == 0xCA then 0x7200_464F else if i == 0xCB then 0x76C1_5BF8 else
    if i == 0xCC then 0x6886_0BFD else if i == 0xCD then 0x6C47_164A else if i == 0xCE then 0x6104_3093 else if i == 0xCF then 0x65C5_2D24 else
    if i == 0xD0 then 0x119B_4BE9 else if i == 0xD1 then 0x155A_565E else if i == 0xD2 then 0x1819_7087 else if i == 0xD3 then 0x1CD8_6D30 else
    if i == 0xD4 then 0x029F_3D35 else if i == 0xD5 then 0x065E_2082 else if i == 0xD6 then 0x0B1D_065B else if i == 0xD7 then 0x0FDC_1BEC else
    if i == 0xD8 then 0x3793_A651 else if i == 0xD9 then 0x3352_BBE6 else if i == 0xDA then 0x3E11_9D3F else if i == 0xDB then 0x3AD0_8088 else
    if i == 0xDC then 0x2497_D08D else if i == 0xDD then 0x2056_CD3A else if i == 0xDE then 0x2D15_EBE3 else 0x29D4_F654
  }

  /** crc32tbl, entries 0xE0 to 0xFF. */
  function EntriesE0(i: bv8): (r: bv32)
    requires i >> 5 == 7
    ensures r == Shift8(Top(i))
  {
    if i == 0xE0 then 0xC5A9_2679 else if i == 0xE1 then 0xC168_3BCE else if i == 0xE2 then 0xCC2B_1D17 else if i == 0xE3 then 0xC8EA_00A0 else
    if i == 0xE4 then 0xD6AD_50A5 else if i == 0xE5 then 0xD26C_4D12 else if i == 0xE6 then 0xDF2F_6BCB else if i == 0xE7 then 0xDBEE_767C else
    if i == 0xE8 then 0xE3A1_CBC1 else if i == 0xE9 then 0xE760_D676 else if i == 0xEA then 0xEA23_F0AF else if i == 0xEB then 0xEEE2_ED18 else
    if i == 0xEC then 0xF0A5_BD1D else if i == 0xED then 0xF464_A0AA else if i == 0xEE then 0xF927_8673 else if i == 0xEF then 0xFDE6_9BC4 else
    if i == 0xF0 then 0x89B8_FD09 else if i == 0xF1 then 0x8D79_E0BE else if i == 0xF2 then 0x803A_C667 else if i == 0xF3 then 0x84FB_DBD0 else
    if i == 0xF4 then 0x9ABC_8BD5 else if i == 0xF5 then 0x9E7D_9662 else if i == 0xF6 then 0x933E_B0BB else if i == 0xF7 then 0x97FF_AD0C else
    if i == 0xF8 then 0xAFB0_10B1 else if i == 0xF9 then 0xAB71_0D06 else if i == 0xFA then 0xA632_2BDF else if i == 0xFB then 0xA2F3_3668 else
    if i == 0xFC then 0xBCB4_666D else if i == 0xFD then 0xB875_7BDA else if i == 0xFE then 0xB536_5D03 else 0xB1F7_40B4
  }

  /** crc32tbl: every entry is the remainder of its index. */
  function Table(i: bv8): (r: bv32)
    ensures r == Shift8(Top(i))
  {
    if i >> 5 == 0 then Entries00(i)
    else if i >> 5 == 1 then Entries20(i)
    else if i >> 5 == 2 then Entries40(i)
    else if i >> 5 == 3 then Entries60(i)
    else if i >> 5 == 4 then Entries80(i)
    else if i >> 5 == 5 then EntriesA0(i)
    else if i >> 5 == 6 then EntriesC0(i)
    else EntriesE0(i)
  }

  /** One turn of the loop of crc32(). */
  function Update(crc: bv32, b: bv8): bv32 { Plus(crc << 8, Table(((crc >> 24) as bv8) ^ b)) }

  function Crc(crc: bv32, buf: seq<bv8>): bv32
    decreases |buf|
  {
    if buf == [] then crc else Crc(Update(crc, buf[0]), buf[1..])
  }

  /** The check value of this CRC (CRC-32/MPEG-2): that of the nine characters 123456789. */
  lemma CheckValue()
    ensures Crc(CRC32_INIT, [0x31, 0x32, 0x33, 0x34, 0x35, 0x36, 0x37, 0x38, 0x39]) == 0x0376_E6E7
  {
    var buf: seq<bv8> := [0x31, 0x32, 0x33, 0x34, 0x35, 0x36, 0x37, 0x38, 0x39];
    assert Update(0xFFFF_FFFF, 0x31) == 0x9EFB_CF93;
    assert Update(0x9EFB_CF93, 0x32) == 0x3FEC_5E6A;
    assert Update(0x3FEC_5E6A, 0x33) == 0xD952_F164;
    assert Update(0xD952_F164, 0x34) == 0xA695_C4AA;
    assert Update(0xA695_C4AA, 0x35) == 0xBD9A_B747;
    assert Update(0xBD9A_B747, 0x36) == 0xD8F0_6C8F;
    assert Update(0xD8F0_6C8F, 0x37) == 0x0D8A_14C4;
    assert Update(0x0D8A_14C4, 0x38) == 0x49E3_C2FB;
    assert Update(0x49E3_C2FB, 0x39) == 0x0376_E6E7;
    hide Update;
    assert Crc(0x49E3_C2FB, buf[8..]) == 0x0376_E6E7;
    assert Crc(0x0D8A_14C4, buf[7..]) == 0x0376_E6E7;
    assert Crc(0xD8F0_6C8F, buf[6..]) == 0x0376_E6E7;
    assert Crc(0xBD9A_B747, buf[5..]) == 0x0376_E6E7;
    assert Crc(0xA695_C4AA, buf[4..]) == 0x0376_E6E7;
    assert Crc(0xD952_F164, buf[3..]) == 0x0376_E6E7;
    assert Crc(0x3FEC_5E6A, buf[2..]) == 0x0376_E6E7;
    assert Crc(0x9EFB_CF93, buf[1..]) == 0x0376_E6E7;
    assert Crc(0xFFFF_FFFF, buf[0..]) == 0x0376_E6E7;
    assert buf[0..] == buf;
  }

  /** crc32() */
  method Compute(crc: bv32, buf: array<bv8>, len: nat) returns (r: bv32)
    requires len <= buf.Length
    ensures r == Crc(crc, buf[..len])
  {
    hide Update;
    r := crc;
    var i := 0;
    while i < len
      invariant i <= len && Crc(crc, buf[..len]) == Crc(r, buf[i..len])
    {
      assert buf[i..len][1..] == buf[i + 1..len];
      r := Update(r, buf[i]);
      i := i + 1;
    }
  }

  // ---------------------------------------------------------------- arithmetic of polynomials

  lemma TimesXOfSum(x: bv32, y: bv32)
    ensures TimesX(Plus(x, y)) == Plus(TimesX(x), TimesX(y))
  {
  }

  lemma CarryOfSum(x: bv32, y: bv32)
    ensures Carry(Plus(x, y)) <==> Carry(x) != Carry(y)
  {
  }

  lemma PlusAssociates(a: bv32, b: bv32, c: bv32)
    ensures Plus(a, Plus(b, c)) == Plus(Plus(a, b), c)
  {
  }

  lemma PlusCommutes(a: bv32, b: bv32)
    ensures Plus(a, b) == Plus(b, a)
  {
  }

  lemma PlusZero(x: bv32)
    ensures Plus(x, 0) == x
  {
  }

  lemma PlusLeft(a: bv32, b: bv32, p: bv32)
    ensures Plus(Plus(a, p), b) == Plus(Plus(a, b), p)
  {
    hide Plus;
    PlusAssociates(a, p, b);
    PlusCommutes(p, b);
    PlusAssociates(a, b, p);
  }

  lemma PlusBoth(a: bv32, b: bv32, p: bv32)
    ensures Plus(Plus(a, p), Plus(b, p)) == Plus(a, b)
  {
    hide Plus;
    PlusAssociates(Plus(a, p), b, p);
    PlusLeft(a, b, p);
    PlusAssociates(Plus(a, b), p, p);
    SumIsZero(p, p);
    PlusZero(Plus(a, b));
  }

  lemma SumIsZero(x: bv32, y: bv32)
    ensures Plus(x, y) == 0 <==> x == y
  {
  }

  lemma Shift1Linear(x: bv32, y: bv32)
    ensures Shift1(Plus(x, y)) == Plus(Shift1(x), Shift1(y))
  {
    hide Plus;
    hide TimesX;
    hide Carry;
    TimesXOfSum(x, y);
    CarryOfSum(x, y);
    PlusBoth(TimesX(x), TimesX(y), POLYNOMIAL);
    PlusLeft(TimesX(x), TimesX(y), POLYNOMIAL);
    PlusAssociates(TimesX(x), TimesX(y), POLYNOMIAL);
  }

  lemma Shift2Linear(x: bv32, y: bv32)
    ensures Shift2(Plus(x, y)) == Plus(Shift2(x), Shift2(y))
  {
    hide Plus;
    hide Shift1;
    Shift1Linear(x, y);
    Shift1Linear(Shift1(x), Shift1(y));
  }

  lemma Shift4Linear(x: bv32, y: bv32)
    ensures Shift4(Plus(x, y)) == Plus(Shift4(x), Shift4(y))
  {
    hide Plus;
    hide Shift2;
    Shift2Linear(x, y);
    Shift2Linear(Shift2(x), Shift2(y));
  }

  lemma Shift8Linear(x: bv32, y: bv32)
    ensures Shift8(Plus(x, y)) == Plus(Shift8(x), Shift8(y))
  {
    hide Plus;
    hide Shift4;
    Shift4Linear(x, y);
    Shift4Linear(Shift4(x), Shift4(y));
  }

  lemma Shift1Zero(x: bv32)
    ensures Shift1(x) == 0 <==> x == 0
  {
  }

  lemma Shift8Zero(x: bv32)
    ensures Shift8(x) == 0 <==> x == 0
  {
    hide Shift1;
    Shift1Zero(x);
    Shift1Zero(Shift1(x));
    Shift1Zero(Shift2(x));
    Shift1Zero(Shift1(Shift2(x)));
    Shift1Zero(Shift4(x));
    Shift1Zero(Shift1(Shift4(x)));
    Shift1Zero(Shift2(Shift4(x)));
    Shift1Zero(Shift1(Shift2(Shift4(x))));
  }

  lemma Shift8Injective(x: bv32, y: bv32)
    requires Shift8(x) == Shift8(y)
    ensures x == y
  {
    hide Shift8;
    hide Plus;
    Shift8Linear(x, y);
    SumIsZero(Shift8(x), Shift8(y));
    Shift8Zero(Plus(x, y));
    SumIsZero(x, y);
  }

  /** Without an octet that falls out, eight shifts are a shift. */
  lemma Shift8OfLow(x: bv32)
    requires x & 0xFF00_0000 == 0
    ensures Shift8(x) == x << 8
  {
  }

  lemma SplitRegister(crc: bv32, b: bv8)
    ensures Plus(crc, Top(b)) == Plus(Top(((crc >> 24) as bv8) ^ b), crc & 0x00FF_FFFF)
  {
    hide Plus;
    hide Top;
    var i, low := (crc >> 24) as bv8, crc & 0x00FF_FFFF;
    RegisterParts(crc);
    TopOfSum(i, b);
    PlusLeft(Top(i), Top(b), low);
  }

  lemma RegisterParts(crc: bv32)
    ensures crc == Plus(Top((crc >> 24) as bv8), crc & 0x00FF_FFFF)
  {
  }

  lemma TopOfSum(i: bv8, b: bv8)
    ensures Top(i ^ b) == Plus(Top(i), Top(b))
  {
  }

  lemma LowPart(crc: bv32)
    ensures (crc & 0x00FF_FFFF) & 0xFF00_0000 == 0
    ensures (crc & 0x00FF_FFFF) << 8 == crc << 8
  {
  }

  /** The table step is "add the octet on top, then multiply by x^8". */
  lemma UpdateIsShift8(crc: bv32, b: bv8)
    ensures Update(crc, b) == Shift8(Plus(crc, Top(b)))
  {
    hide Shift8;
    hide Plus;
    hide Top;
    hide Table;
    var i, low := ((crc >> 24) as bv8) ^ b, crc & 0x00FF_FFFF;
    SplitRegister(crc, b);
    LowPart(crc);
    Shift8OfLow(low);
    Shift8Linear(Top(i), low);
    PlusCommutes(Shift8(Top(i)), crc << 8);
  }

  // ---------------------------------------------------------------- table-driven = bit-serial

  function LeadingBit(bit: bool): bv32 { if bit then 0x8000_0000 else 0 }

  lemma SplitOctet(b: bv8)
    ensures Top(b) == Plus(LeadingBit(b & 0x80 != 0), Top(b) & 0x7FFF_FFFF)
    ensures (Top(b) & 0x7FFF_FFFF) << 1 == Top(b << 1)
  {
  }

  lemma Shift1OfLow(x: bv32)
    ensures Shift1(x & 0x7FFF_FFFF) == (x & 0x7FFF_FFFF) << 1
  {
  }

  lemma ClockIsShift(crc: bv32, bit: bool)
    ensures ClockBit(crc, bit) == Shift1(Plus(crc, LeadingBit(bit)))
  {
    hide Plus;
    hide TimesX;
    hide Carry;
    CarryOfSum(crc, LeadingBit(bit));
    TimesXOfSum(crc, LeadingBit(bit));
    LeadingBitShifts(bit);
    PlusZero(TimesX(crc));
  }

  lemma LeadingBitShifts(bit: bool)
    ensures TimesX(LeadingBit(bit)) == 0 && (Carry(LeadingBit(bit)) <==> bit)
  {
  }

  /** One bit enters: the register with the rest of the octet on top moves on by one. */
  lemma ClockStep(crc: bv32, b: bv8)
    ensures Plus(ClockBit(crc, b & 0x80 != 0), Top(b << 1)) == Shift1(Plus(crc, Top(b)))
  {
    hide Shift1;
    hide ClockBit;
    hide Plus;
    hide Top;
    hide LeadingBit;
    var bit, low := LeadingBit(b & 0x80 != 0), Top(b) & 0x7FFF_FFFF;
    SplitOctet(b);
    ClockIsShift(crc, b & 0x80 != 0);
    PlusAssociates(crc, bit, low);
    Shift1Linear(Plus(crc, bit), low);
    Shift1OfLow(Top(b));
  }

  /** The bits of an octet are the leading bits of the octet as it moves up. */
  lemma BitsMoveUp(b: bv8)
    ensures Bits(b)[0] == (b & 0x80 != 0)
    ensures Bits(b)[1] == ((b << 1) & 0x80 != 0)
    ensures Bits(b)[2] == ((b << 2) & 0x80 != 0)
    ensures Bits(b)[3] == ((b << 3) & 0x80 != 0)
    ensures Bits(b)[4] == ((b << 4) & 0x80 != 0)
    ensures Bits(b)[5] == ((b << 5) & 0x80 != 0)
    ensures Bits(b)[6] == ((b << 6) & 0x80 != 0)
    ensures Bits(b)[7] == ((b << 7) & 0x80 != 0)
  {
  }

  lemma OctetMovesUp(b: bv8)
    ensures (b << 1) << 1 == b << 2 && (b << 2) << 1 == b << 3 && (b << 3) << 1 == b << 4 && (b << 4) << 1 == b << 5
    ensures (b << 5) << 1 == b << 6 && (b << 6) << 1 == b << 7 && (b << 7) << 1 == 0
  {
  }

  /** The register after the first `k` bits of an octet. */
  function Clocked(crc: bv32, b: bv8, k: nat): bv32
    requires k <= 8
  {
    if k == 0 then crc else ClockBit(Clocked(crc, b, k - 1), Bits(b)[k - 1])
  }

  lemma EightClocks(crc: bv32, b: bv8)
    ensures Clocked(crc, b, 8) == Shift8(Plus(crc, Top(b)))
  {
    hide ClockBit;
    hide Shift1;
    hide Plus;
    hide Top;
    hide Bits;
    BitsMoveUp(b);
    OctetMovesUp(b);
    ClockStep(Clocked(crc, b, 0), b);
    ClockStep(Clocked(crc, b, 1), b << 1);
    ClockStep(Clocked(crc, b, 2), b << 2);
    ClockStep(Clocked(crc, b, 3), b << 3);
    ClockStep(Clocked(crc, b, 4), b << 4);
    ClockStep(Clocked(crc, b, 5), b << 5);
    ClockStep(Clocked(crc, b, 6), b << 6);
    ClockStep(Clocked(crc, b, 7), b << 7);
    TopOfZero();
    PlusZero(Clocked(crc, b, 8));
  }

  lemma TopOfZero()
    ensures Top(0) == 0
  {
  }

  lemma {:induction false} DivideClocks(crc: bv32, b: bv8, rest: seq<bool>, k: nat)
    requires k <= 8
    ensures Divide(crc, Bits(b) + rest) == Divide(Clocked(crc, b, k), Bits(b)[k..] + rest)
  {
    hide ClockBit;
    if k == 0 {
      assert Bits(b)[0..] == Bits(b);
    } else {
      DivideClocks(crc, b, rest, k - 1);
      var bits := Bits(b)[k - 1..] + rest;
      assert bits[0] == Bits(b)[k - 1] && bits[1..] == Bits(b)[k..] + rest;
    }
  }

  /** The table-driven loop computes the bit-serial division, on every buffer. */
  lemma {:induction false} TableEqualsDivision(crc: bv32, buf: seq<bv8>)
    ensures Crc(crc, buf) == Divide(crc, AllBits(buf))
    decreases |buf|
  {
    hide Update;
    hide Shift8;
    hide Bits;
    if buf != [] {
      var rest := AllBits(buf[1..]);
      UpdateIsShift8(crc, buf[0]);
      EightClocks(crc, buf[0]);
      DivideClocks(crc, buf[0], rest, 8);
      assert Bits(buf[0])[8..] + rest == rest;
      TableEqualsDivision(Update(crc, buf[0]), buf[1..]);
    }
  }

  // ---------------------------------------------------------------- what the CRC detects

  lemma {:induction false} CrcJoined(crc: bv32, x: seq<bv8>, y: seq<bv8>)
    ensures Crc(crc, x + y) == Crc(Crc(crc, x), y)
    decreases |x|
  {
    hide Update;
    if x == [] {
      assert x + y == y;
    } else {
      assert (x + y)[1..] == x[1..] + y;
      CrcJoined(Update(crc, x[0]), x[1..], y);
    }
  }

  /** Different registers stay different. */
  lemma {:induction false} CrcInjective(c: bv32, d: bv32, buf: seq<bv8>)
    requires Crc(c, buf) == Crc(d, buf)
    ensures c == d
    decreases |buf|
  {
    hide Update;
    hide Plus;
    hide Shift8;
    if buf != [] {
      CrcInjective(Update(c, buf[0]), Update(d, buf[0]), buf[1..]);
      UpdateIsShift8(c, buf[0]);
      UpdateIsShift8(d, buf[0]);
      Shift8Injective(Plus(c, Top(buf[0])), Plus(d, Top(buf[0])));
      PlusCancels(c, d, Top(buf[0]));
    }
  }

  lemma PlusCancels(c: bv32, d: bv32, p: bv32)
    ensures Plus(c, p) == Plus(d, p) ==> c == d
  {
  }

  /** An octet one, two and three places further down. */
  function Top1(b: bv8): bv32 { Top(b) >> 8 }

  function Top2(b: bv8): bv32 { Top(b) >> 16 }

  function Top3(b: bv8): bv32 { Top(b) >> 24 }

  /** Four octets as one polynomial. */
  function Quad(a: bv8, b: bv8, c: bv8, d: bv8): bv32 { Plus(Plus(Plus(Top(a), Top1(b)), Top2(c)), Top3(d)) }

  lemma LowOctets(b: bv8)
    ensures Shift8(Top1(b)) == Top(b) && Shift8(Top2(b)) == Top1(b) && Shift8(Top3(b)) == Top2(b)
  {
    hide Shift8;
    OctetsFit(b);
    Shift8OfLow(Top1(b));
    Shift8OfLow(Top2(b));
    Shift8OfLow(Top3(b));
  }

  lemma OctetsFit(b: bv8)
    ensures Top1(b) & 0xFF00_0000 == 0 && Top1(b) << 8 == Top(b)
    ensures Top2(b) & 0xFF00_0000 == 0 && Top2(b) << 8 == Top1(b)
    ensures Top3(b) & 0xFF00_0000 == 0 && Top3(b) << 8 == Top2(b)
  {
  }

  /** An octet that enters after one, two or three others could have been added that many octets
      further down at the start. */
  lemma EnterEarly(x: bv32, b: bv8)
    ensures Plus(Shift8(x), Top(b)) == Shift8(Plus(x, Top1(b)))
    ensures Plus(Shift8(Shift8(x)), Top(b)) == Shift8(Shift8(Plus(x, Top2(b))))
    ensures Plus(Shift8(Shift8(Shift8(x))), Top(b)) == Shift8(Shift8(Shift8(Plus(x, Top3(b)))))
  {
    hide Shift8;
    hide Plus;
    hide Top;
    hide Top1;
    hide Top2;
    hide Top3;
    LowOctets(b);
    Shift8Linear(x, Top1(b));
    Shift8Linear(Shift8(x), Top1(b));
    Shift8Linear(x, Top2(b));
    Shift8Linear(Shift8(Shift8(x)), Top1(b));
    Shift8Linear(Shift8(x), Top2(b));
    Shift8Linear(x, Top3(b));
  }

  /** Four octets are taken in as one 32-bit word. */
  lemma CrcOfQuad(crc: bv32, a: bv8, b: bv8, c: bv8, d: bv8)
    ensures Crc(crc, [a, b, c, d]) == Shift8(Shift8(Shift8(Shift8(Plus(crc, Quad(a, b, c, d))))))
  {
    hide Plus;
    hide Shift8;
    hide Update;
    hide Top;
    hide Top1;
    hide Top2;
    hide Top3;
    hide Crc;
    var x1 := Plus(crc, Top(a));
    var x2 := Plus(x1, Top1(b));
    var x3 := Plus(x2, Top2(c));
    UnrollFour(crc, a, b, c, d);
    UpdateIsShift8(crc, a);
    UpdateIsShift8(Shift8(x1), b);
    EnterEarly(x1, b);
    UpdateIsShift8(Shift8(Shift8(x2)), c);
    EnterEarly(x2, c);
    UpdateIsShift8(Shift8(Shift8(Shift8(x3))), d);
    EnterEarly(x3, d);
    QuadFromLeft(crc, Top(a), Top1(b), Top2(c), Top3(d));
  }

  lemma UnrollFour(crc: bv32, a: bv8, b: bv8, c: bv8, d: bv8)
    ensures Crc(crc, [a, b, c, d]) == Update(Update(Update(Update(crc, a), b), c), d)
  {
    hide Update;
    var c1 := Update(crc, a);
    var c2 := Update(c1, b);
    assert [a, b, c, d][1..] == [b, c, d] && [b, c, d][1..] == [c, d] && [c, d][1..] == [d] && [d][1..] == [];
    assert Crc(crc, [a, b, c, d]) == Crc(c1, [b, c, d]) == Crc(c2, [c, d]);
    assert Crc(c2, [c, d]) == Crc(Update(c2, c), [d]) == Crc(Update(Update(c2, c), d), []);
  }

  lemma QuadFromLeft(crc: bv32, a: bv32, b: bv32, c: bv32, d: bv32)
    ensures Plus(Plus(Plus(Plus(crc, a), b), c), d) == Plus(crc, Plus(Plus(Plus(a, b), c), d))
  {
    hide Plus;
    PlusAssociates(crc, a, b);
    PlusAssociates(crc, Plus(a, b), c);
    PlusAssociates(crc, Plus(Plus(a, b), c), d);
  }

  /** The four octets of a register, the most significant one first. */
  function BigEndian(crc: bv32): seq<bv8> {
    [(crc >> 24) as bv8, ((crc >> 16) & 0xFF) as bv8, ((crc >> 8) & 0xFF) as bv8, (crc & 0xFF) as bv8]
  }

  lemma BigEndianOfQuad(a: bv8, b: bv8, c: bv8, d: bv8)
    ensures BigEndian(Quad(a, b, c, d)) == [a, b, c, d]
  {
  }

  /** Two windows of four octets that differ lead to different registers. */
  lemma QuadDetected(crc: bv32, x: seq<bv8>, y: seq<bv8>)
    requires |x| == |y| == 4 && Crc(crc, x) == Crc(crc, y)
    ensures x == y
  {
    hide Shift8;
    hide Plus;
    hide Crc;
    hide Quad;
    hide BigEndian;
    assert x == [x[0], x[1], x[2], x[3]] && y == [y[0], y[1], y[2], y[3]];
    var p, q := Quad(x[0], x[1], x[2], x[3]), Quad(y[0], y[1], y[2], y[3]);
    CrcOfQuad(crc, x[0], x[1], x[2], x[3]);
    CrcOfQuad(crc, y[0], y[1], y[2], y[3]);
    var u, v := Plus(crc, p), Plus(crc, q);
    Shift8Injective(Shift8(Shift8(Shift8(u))), Shift8(Shift8(Shift8(v))));
    Shift8Injective(Shift8(Shift8(u)), Shift8(Shift8(v)));
    Shift8Injective(Shift8(u), Shift8(v));
    Shift8Injective(u, v);
    PlusCommutes(crc, p);
    PlusCommutes(crc, q);
    PlusCancels(p, q, crc);
    BigEndianOfQuad(x[0], x[1], x[2], x[3]);
    BigEndianOfQuad(y[0], y[1], y[2], y[3]);
  }

  /** Every error burst of up to four consecutive octets changes the CRC. */
  lemma BurstDetected(crc: bv32, before: seq<bv8>, x: seq<bv8>, y: seq<bv8>, after: seq<bv8>)
    requires |x| == |y| <= 4
    ensures Crc(crc, before + x + after) == Crc(crc, before + y + after) ==> x == y
  {
    hide Crc;
    if Crc(crc, before + x + after) == Crc(crc, before + y + after) {
      var c := Crc(crc, before);
      CrcJoined(crc, before, x);
      CrcJoined(crc, before, y);
      CrcJoined(crc, before + x, after);
      CrcJoined(crc, before + y, after);
      CrcInjective(Crc(c, x), Crc(c, y), after);
      var pad := seq(4 - |x|, _ => 0 as bv8);
      CrcJoined(c, x, pad);
      CrcJoined(c, y, pad);
      QuadDetected(c, x + pad, y + pad);
      assert x == (x + pad)[..|x|] && y == (y + pad)[..|x|];
    }
  }

  lemma QuadOfBigEndian(crc: bv32)
    ensures Quad((crc >> 24) as bv8, ((crc >> 16) & 0xFF) as bv8, ((crc >> 8) & 0xFF) as bv8, (crc & 0xFF) as bv8) == crc
  {
  }

  /** Running the CRC over a buffer with four octets appended gives zero exactly when those four
      octets are the CRC of the buffer. */
  lemma ZeroResidue(crc: bv32, buf: seq<bv8>, t: seq<bv8>)
    requires |t| == 4
    ensures Crc(crc, buf + t) == 0 <==> t == BigEndian(Crc(crc, buf))
  {
    hide Crc;
    hide BigEndian;
    CrcJoined(crc, buf, t);
    OwnCrcGivesZero(Crc(crc, buf));
    if Crc(crc, buf + t) == 0 { QuadDetected(Crc(crc, buf), t, BigEndian(Crc(crc, buf))); }
  }

  lemma OwnCrcGivesZero(c: bv32)
    ensures |BigEndian(c)| == 4 && Crc(c, BigEndian(c)) == 0
  {
    hide Shift8;
    hide Plus;
    hide Crc;
    hide Quad;
    QuadOfBigEndian(c);
    var t := BigEndian(c);
    CrcOfQuad(c, t[0], t[1], t[2], t[3]);
    SumIsZero(c, c);
    Shift8Zero(0);
  }
}
