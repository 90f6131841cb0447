/** Arithmetic of the field with 256 elements used by the Reed-Solomon codec:
    polynomials over GF(2) modulo x^8 + x^4 + x^3 + x^2 + 1 (0x11D), generator 2.

    `Add` and `Mul` are the mathematical definition (exclusive or, and shift-and-xor
    multiplication).  The log table is the constant the repository ships; it is used
    here to prove the remaining field laws.  Every law is a lemma to be called, and the
    proofs elsewhere hide the bodies of `Add` and `Mul` and reason from the laws alone. */
module Galois {

  type byte = bv8

  const BITS: nat := 8

  // generatingPolynomial: the reduction polynomial without its x^8 term
  const GENERATING_POLYNOMIAL: byte := 29

  function Add(a: byte, b: byte): byte { a ^ b }

  // All ones when the low bit is set, zero otherwise.
  function Mask(bit: byte): byte { 0 - (bit & 1) }

  function Gate(bit: byte, a: byte): byte { Mask(bit) & a }

  function Half(b: byte): byte { b >> 1 }

  // Multiplication by x (that is, by 2).
  function Xtime(a: byte): byte { (a << 1) ^ (Mask(a >> 7) & GENERATING_POLYNOMIAL) }

  // Shift-and-xor product of a with the n low bits of b.
  function MulBits(a: byte, b: byte, n: nat): byte
    decreases n
  {
    if n == 0 then 0 else Add(Gate(b, a), MulBits(Xtime(a), Half(b), n - 1))
  }

  function Mul(a: byte, b: byte): byte { MulBits(a, b, BITS) }

  function IntOf(b: byte): (i: int)
    ensures 0 <= i < 256
  {
    b as int
  }

  // ---- addition ----

  lemma AddComm(a: byte, b: byte)
    ensures Add(a, b) == Add(b, a)
  {}

  lemma AddAssoc(a: byte, b: byte, c: byte)
    ensures Add(Add(a, b), c) == Add(a, Add(b, c))
  {}

  lemma AddZero(a: byte)
    ensures Add(a, 0) == a && Add(0, a) == a
  {}

  lemma AddSelf(a: byte)
    ensures Add(a, a) == 0
  {}

  lemma AddSwap(a: byte, b: byte, c: byte, d: byte)
    ensures Add(Add(a, b), Add(c, d)) == Add(Add(a, c), Add(b, d))
  {
    hide Add;
    AddAssoc(a, b, Add(c, d));
    AddAssoc(b, c, d);
    AddComm(b, c);
    AddAssoc(c, b, d);
    AddAssoc(a, c, Add(b, d));
  }

  lemma AddCancel(a: byte, b: byte)
    ensures Add(Add(a, b), b) == a
    ensures Add(a, b) == 0 <==> a == b
  {
    AddAssoc(a, b, b);
    AddSelf(b);
    AddZero(a);
  }

  // ---- multiplication is bilinear ----

  lemma HalfAdd(a: byte, b: byte)
    ensures Half(Add(a, b)) == Add(Half(a), Half(b))
  {}

  lemma XtimeAdd(a: byte, b: byte)
    ensures Xtime(Add(a, b)) == Add(Xtime(a), Xtime(b))
  {}

  lemma XtimeGate(a: byte, bit: byte)
    ensures Xtime(Gate(bit, a)) == Gate(bit, Xtime(a))
  {}

  lemma GateAddBit(b: byte, c: byte, a: byte)
    ensures Gate(Add(b, c), a) == Add(Gate(b, a), Gate(c, a))
  {}

  lemma AndAdd(m: byte, a: byte, b: byte)
    ensures m & Add(a, b) == Add(m & a, m & b)
  {}

  lemma GateAdd(bit: byte, a: byte, b: byte)
    ensures Gate(bit, Add(a, b)) == Add(Gate(bit, a), Gate(bit, b))
  {
    hide Mask, Add;
    AndAdd(Mask(bit), a, b);
  }

  lemma {:induction false} MulBitsAddRight(a: byte, b: byte, c: byte, n: nat)
    ensures MulBits(a, Add(b, c), n) == Add(MulBits(a, b, n), MulBits(a, c, n))
    decreases n
  {
    hide Add, Gate, Xtime, Half;
    if n == 0 {
      AddZero(0);
    } else {
      HalfAdd(b, c);
      GateAddBit(b, c, a);
      MulBitsAddRight(Xtime(a), Half(b), Half(c), n - 1);
      AddSwap(Gate(b, a), Gate(c, a), MulBits(Xtime(a), Half(b), n - 1), MulBits(Xtime(a), Half(c), n - 1));
    }
  }

  lemma {:induction false} MulBitsAddLeft(a: byte, b: byte, c: byte, n: nat)
    ensures MulBits(Add(a, b), c, n) == Add(MulBits(a, c, n), MulBits(b, c, n))
    decreases n
  {
    hide Add, Gate, Xtime, Half;
    if n == 0 {
      AddZero(0);
    } else {
      XtimeAdd(a, b);
      GateAdd(c, a, b);
      MulBitsAddLeft(Xtime(a), Xtime(b), Half(c), n - 1);
      AddSwap(Gate(c, a), Gate(c, b), MulBits(Xtime(a), Half(c), n - 1), MulBits(Xtime(b), Half(c), n - 1));
    }
  }

  lemma {:induction false} MulBitsXtime(a: byte, b: byte, n: nat)
    ensures MulBits(Xtime(a), b, n) == Xtime(MulBits(a, b, n))
    decreases n
  {
    if n == 0 {
    } else {
      hide Add, Gate, Xtime, Half;
      XtimeAdd(Gate(b, a), MulBits(Xtime(a), Half(b), n - 1));
      XtimeGate(a, b);
      MulBitsXtime(Xtime(a), Half(b), n - 1);
    }
  }

  lemma MulAdd(a: byte, b: byte, c: byte)
    ensures Mul(a, Add(b, c)) == Add(Mul(a, b), Mul(a, c))
    ensures Mul(Add(a, b), c) == Add(Mul(a, c), Mul(b, c))
  {
    hide Add, MulBits;
    MulBitsAddRight(a, b, c, BITS);
    MulBitsAddLeft(a, b, c, BITS);
  }

  lemma MulXtime(a: byte, b: byte)
    ensures Mul(Xtime(a), b) == Xtime(Mul(a, b))
  {
    hide Xtime, MulBits;
    MulBitsXtime(a, b, BITS);
  }

  lemma MulOneLeft(a: byte)
    ensures Mul(1, a) == a
  {
    calc {
      Mul(1, a);
      MulBits(1, a, 8);
    }
  }

  lemma MulZero(a: byte)
    ensures Mul(0, a) == 0 && Mul(a, 0) == 0
  {
    hide *;
    AddSelf(0);
    MulAdd(0, 0, a);
    AddSelf(Mul(0, a));
    MulAdd(a, 0, 0);
    AddSelf(Mul(a, 0));
  }

  // ---- powers of the generator and the log table ----

  // The k-th power of the generator 2.
  function Exp(k: nat): byte {
    if k == 0 then 1 else Xtime(Exp(k - 1))
  }

  // logTable, as 16 rows of 16
  const LOG_TABLE: seq<seq<nat>> := [
    [0, 0, 1, 25, 2, 50, 26, 198, 3, 223, 51, 238, 27, 104, 199, 75],
    [4, 100, 224, 14, 52, 141, 239, 129, 28, 193, 105, 248, 200, 8, 76, 113],
    [5, 138, 101, 47, 225, 36, 15, 33, 53, 147, 142, 218, 240, 18, 130, 69],
    [29, 181, 194, 125, 106, 39, 249, 185, 201, 154, 9, 120, 77, 228, 114, 166],
    [6, 191, 139, 98, 102, 221, 48, 253, 226, 152, 37, 179, 16, 145, 34, 136],
    [54, 208, 148, 206, 143, 150, 219, 189, 241, 210, 19, 92, 131, 56, 70, 64],
    [30, 66, 182, 163, 195, 72, 126, 110, 107, 58, 40, 84, 250, 133, 186, 61],
    [202, 94, 155, 159, 10, 21, 121, 43, 78, 212, 229, 172, 115, 243, 167, 87],
    [7, 112, 192, 247, 140, 128, 99, 13, 103, 74, 222, 237, 49, 197, 254, 24],
    [227, 165, 153, 119, 38, 184, 180, 124, 17, 68, 146, 217, 35, 32, 137, 46],
    [55, 63, 209, 91, 149, 188, 207, 205, 144, 135, 151, 178, 220, 252, 190, 97],
    [242, 86, 211, 171, 20, 42, 93, 158, 132, 60, 57, 83, 71, 109, 65, 162],
    [31, 45, 67, 216, 183, 123, 164, 118, 196, 23, 73, 236, 127, 12, 111, 246],
    [108, 161, 59, 82, 41, 157, 85, 170, 251, 96, 134, 177, 187, 204, 62, 90],
    [203, 89, 95, 176, 156, 169, 160, 81, 11, 245, 22, 235, 122, 117, 44, 215],
    [79, 174, 213, 233, 230, 231, 173, 232, 116, 214, 244, 234, 168, 80, 88, 175]
  ]

  lemma LogTableShape()
    ensures |LOG_TABLE| == 16
    ensures forall r :: 0 <= r < 16 ==> |LOG_TABLE[r]| == 16
  {}

  // logTable[a]; the entry for 0 is a placeholder the code never uses
  function Log(a: byte): nat {
    LogTableShape();
    LOG_TABLE[IntOf(a) / 16][IntOf(a) % 16]
  }

  lemma ExpOne()
    ensures Exp(0) == 1
  {}

  lemma Next(k: nat, e: byte)
    requires Exp(k) == e
    ensures Exp(k + 1) == Xtime(e)
  {}

  // powers 0 to 32
  lemma ExpRow0()
    requires Exp(0) == 1
    ensures Exp(1) == 2 && Exp(2) == 4 && Exp(3) == 8 && Exp(4) == 16 && Exp(5) == 32 && Exp(6) == 64 &&
      Exp(7) == 128 && Exp(8) == 29
    ensures Exp(9) == 58 && Exp(10) == 116 && Exp(11) == 232 && Exp(12) == 205 && Exp(13) == 135 && Exp(14) == 19 &&
      Exp(15) == 38 && Exp(16) == 76
    ensures Exp(17) == 152 && Exp(18) == 45 && Exp(19) == 90 && Exp(20) == 180 && Exp(21) == 117 && Exp(22) == 234 &&
      Exp(23) == 201 && Exp(24) == 143
    ensures Exp(25) == 3 && Exp(26) == 6 && Exp(27) == 12 && Exp(28) == 24 && Exp(29) == 48 && Exp(30) == 96 &&
      Exp(31) == 192 && Exp(32) == 157
  {
    hide Exp;
    Next(0, 1); Next(1, 2); Next(2, 4); Next(3, 8);
    Next(4, 16); Next(5, 32); Next(6, 64); Next(7, 128);
    Next(8, 29); Next(9, 58); Next(10, 116); Next(11, 232);
    Next(12, 205); Next(13, 135); Next(14, 19); Next(15, 38);
    Next(16, 76); Next(17, 152); Next(18, 45); Next(19, 90);
    Next(20, 180); Next(21, 117); Next(22, 234); Next(23, 201);
    Next(24, 143); Next(25, 3); Next(26, 6); Next(27, 12);
    Next(28, 24); Next(29, 48); Next(30, 96); Next(31, 192);
  }

  // powers 32 to 64
  lemma ExpRow1()
    requires Exp(32) == 157
    ensures Exp(33) == 39 && Exp(34) == 78 && Exp(35) == 156 && Exp(36) == 37 && Exp(37) == 74 && Exp(38) == 148 &&
      Exp(39) == 53 && Exp(40) == 106
    ensures Exp(41) == 212 && Exp(42) == 181 && Exp(43) == 119 && Exp(44) == 238 && Exp(45) == 193 && Exp(46) == 159 &&
      Exp(47) == 35 && Exp(48) == 70
    ensures Exp(49) == 140 && Exp(50) == 5 && Exp(51) == 10 && Exp(52) == 20 && Exp(53) == 40 && Exp(54) == 80 &&
      Exp(55) == 160 && Exp(56) == 93
    ensures Exp(57) == 186 && Exp(58) == 105 && Exp(59) == 210 && Exp(60) == 185 && Exp(61) == 111 && Exp(62) == 222 &&
      Exp(63) == 161 && Exp(64) == 95
  {
    hide Exp;
    Next(32, 157); Next(33, 39); Next(34, 78); Next(35, 156);
    Next(36, 37); Next(37, 74); Next(38, 148); Next(39, 53);
    Next(40, 106); Next(41, 212); Next(42, 181); Next(43, 119);
    Next(44, 238); Next(45, 193); Next(46, 159); Next(47, 35);
    Next(48, 70); Next(49, 140); Next(50, 5); Next(51, 10);
    Next(52, 20); Next(53, 40); Next(54, 80); Next(55, 160);
    Next(56, 93); Next(57, 186); Next(58, 105); Next(59, 210);
    Next(60, 185); Next(61, 111); Next(62, 222); Next(63, 161);
  }

  // powers 64 to 96
  lemma ExpRow2()
    requires Exp(64) == 95
    ensures Exp(65) == 190 && Exp(66) == 97 && Exp(67) == 194 && Exp(68) == 153 && Exp(69) == 47 && Exp(70) == 94 &&
      Exp(71) == 188 && Exp(72) == 101
    ensures Exp(73) == 202 && Exp(74) == 137 && Exp(75) == 15 && Exp(76) == 30 && Exp(77) == 60 && Exp(78) == 120 &&
      Exp(79) == 240 && Exp(80) == 253
    ensures Exp(81) == 231 && Exp(82) == 211 && Exp(83) == 187 && Exp(84) == 107 && Exp(85) == 214 && Exp(86) == 177 &&
      Exp(87) == 127 && Exp(88) == 254
    ensures Exp(89) == 225 && Exp(90) == 223 && Exp(91) == 163 && Exp(92) == 91 && Exp(93) == 182 && Exp(94) == 113 &&
      Exp(95) == 226 && Exp(96) == 217
  {
    hide Exp;
    Next(64, 95); Next(65, 190); Next(66, 97); Next(67, 194);
    Next(68, 153); Next(69, 47); Next(70, 94); Next(71, 188);
    Next(72, 101); Next(73, 202); Next(74, 137); Next(75, 15);
    Next(76, 30); Next(77, 60); Next(78, 120); Next(79, 240);
    Next(80, 253); Next(81, 231); Next(82, 211); Next(83, 187);
    Next(84, 107); Next(85, 214); Next(86, 177); Next(87, 127);
    Next(88, 254); Next(89, 225); Next(90, 223); Next(91, 163);
    Next(92, 91); Next(93, 182); Next(94, 113); Next(95, 226);
  }

  // powers 96 to 128
  lemma ExpRow3()
    requires Exp(96) == 217
    ensures Exp(97) == 175 && Exp(98) == 67 && Exp(99) == 134 && Exp(100) == 17 && Exp(101) == 34 && Exp(102) == 68 &&
      Exp(103) == 136 && Exp(104) == 13
    ensures Exp(105) == 26 && Exp(106) == 52 && Exp(107) == 104 && Exp(108) == 208 && Exp(109) == 189 &&
      Exp(110) == 103 && Exp(111) == 206 && Exp(112) == 129
    ensures Exp(113) == 31 && Exp(114) == 62 && Exp(115) == 124 && Exp(116) == 248 && Exp(117) == 237 &&
      Exp(118) == 199 && Exp(119) == 147 && Exp(120) == 59
    ensures Exp(121) == 118 && Exp(122) == 236 && Exp(123) == 197 && Exp(124) == 151 && Exp(125) == 51 &&
      Exp(126) == 102 && Exp(127) == 204 && Exp(128) == 133
  {
    hide Exp;
    Next(96, 217); Next(97, 175); Next(98, 67); Next(99, 134);
    Next(100, 17); Next(101, 34); Next(102, 68); Next(103, 136);
    Next(104, 13); Next(105, 26); Next(106, 52); Next(107, 104);
    Next(108, 208); Next(109, 189); Next(110, 103); Next(111, 206);
    Next(112, 129); Next(113, 31); Next(114, 62); Next(115, 124);
    Next(116, 248); Next(117, 237); Next(118, 199); Next(119, 147);
    Next(120, 59); Next(121, 118); Next(122, 236); Next(123, 197);
    Next(124, 151); Next(125, 51); Next(126, 102); Next(127, 204);
  }

  // powers 128 to 160
  lemma ExpRow4()
    requires Exp(128) == 133
    ensures Exp(129) == 23 && Exp(130) == 46 && Exp(131) == 92 && Exp(132) == 184 && Exp(133) == 109 &&
      Exp(134) == 218 && Exp(135) == 169 && Exp(136) == 79
    ensures Exp(137) == 158 && Exp(138) == 33 && Exp(139) == 66 && Exp(140) == 132 && Exp(141) == 21 &&
      Exp(142) == 42 && Exp(143) == 84 && Exp(144) == 168
    ensures Exp(145) == 77 && Exp(146) == 154 && Exp(147) == 41 && Exp(148) == 82 && Exp(149) == 164 &&
      Exp(150) == 85 && Exp(151) == 170 && Exp(152) == 73
    ensures Exp(153) == 146 && Exp(154) == 57 && Exp(155) == 114 && Exp(156) == 228 && Exp(157) == 213 &&
      Exp(158) == 183 && Exp(159) == 115 && Exp(160) == 230
  {
    hide Exp;
    Next(128, 133); Next(129, 23); Next(130, 46); Next(131, 92);
    Next(132, 184); Next(133, 109); Next(134, 218); Next(135, 169);
    Next(136, 79); Next(137, 158); Next(138, 33); Next(139, 66);
    Next(140, 132); Next(141, 21); Next(142, 42); Next(143, 84);
    Next(144, 168); Next(145, 77); Next(146, 154); Next(147, 41);
    Next(148, 82); Next(149, 164); Next(150, 85); Next(151, 170);
    Next(152, 73); Next(153, 146); Next(154, 57); Next(155, 114);
    Next(156, 228); Next(157, 213); Next(158, 183); Next(159, 115);
  }

  // powers 160 to 192
  lemma ExpRow5()
    requires Exp(160) == 230
    ensures Exp(161) == 209 && Exp(162) == 191 && Exp(163) == 99 && Exp(164) == 198 && Exp(165) == 145 &&
      Exp(166) == 63 && Exp(167) == 126 && Exp(168) == 252
    ensures Exp(169) == 229 && Exp(170) == 215 && Exp(171) == 179 && Exp(172) == 123 && Exp(173) == 246 &&
      Exp(174) == 241 && Exp(175) == 255 && Exp(176) == 227
    ensures Exp(177) == 219 && Exp(178) == 171 && Exp(179) == 75 && Exp(180) == 150 && Exp(181) == 49 &&
      Exp(182) == 98 && Exp(183) == 196 && Exp(184) == 149
    ensures Exp(185) == 55 && Exp(186) == 110 && Exp(187) == 220 && Exp(188) == 165 && Exp(189) == 87 &&
      Exp(190) == 174 && Exp(191) == 65 && Exp(192) == 130
  {
    hide Exp;
    Next(160, 230); Next(161, 209); Next(162, 191); Next(163, 99);
    Next(164, 198); Next(165, 145); Next(166, 63); Next(167, 126);
    Next(168, 252); Next(169, 229); Next(170, 215); Next(171, 179);
    Next(172, 123); Next(173, 246); Next(174, 241); Next(175, 255);
    Next(176, 227); Next(177, 219); Next(178, 171); Next(179, 75);
    Next(180, 150); Next(181, 49); Next(182, 98); Next(183, 196);
    Next(184, 149); Next(185, 55); Next(186, 110); Next(187, 220);
    Next(188, 165); Next(189, 87); Next(190, 174); Next(191, 65);
  }

  // powers 192 to 224
  lemma ExpRow6()
    requires Exp(192) == 130
    ensures Exp(193) == 25 && Exp(194) == 50 && Exp(195) == 100 && Exp(196) == 200 && Exp(197) == 141 &&
      Exp(198) == 7 && Exp(199) == 14 && Exp(200) == 28
    ensures Exp(201) == 56 && Exp(202) == 112 && Exp(203) == 224 && Exp(204) == 221 && Exp(205) == 167 &&
      Exp(206) == 83 && Exp(207) == 166 && Exp(208) == 81
    ensures Exp(209) == 162 && Exp(210) == 89 && Exp(211) == 178 && Exp(212) == 121 && Exp(213) == 242 &&
      Exp(214) == 249 && Exp(215) == 239 && Exp(216) == 195
    ensures Exp(217) == 155 && Exp(218) == 43 && Exp(219) == 86 && Exp(220) == 172 && Exp(221) == 69 &&
      Exp(222) == 138 && Exp(223) == 9 && Exp(224) == 18
  {
    hide Exp;
    Next(192, 130); Next(193, 25); Next(194, 50); Next(195, 100);
    Next(196, 200); Next(197, 141); Next(198, 7); Next(199, 14);
    Next(200, 28); Next(201, 56); Next(202, 112); Next(203, 224);
    Next(204, 221); Next(205, 167); Next(206, 83); Next(207, 166);
    Next(208, 81); Next(209, 162); Next(210, 89); Next(211, 178);
    Next(212, 121); Next(213, 242); Next(214, 249); Next(215, 239);
    Next(216, 195); Next(217, 155); Next(218, 43); Next(219, 86);
    Next(220, 172); Next(221, 69); Next(222, 138); Next(223, 9);
  }

  // powers 224 to 255
  lemma ExpRow7()
    requires Exp(224) == 18
    ensures Exp(225) == 36 && Exp(226) == 72 && Exp(227) == 144 && Exp(228) == 61 && Exp(229) == 122 &&
      Exp(230) == 244 && Exp(231) == 245 && Exp(232) == 247
    ensures Exp(233) == 243 && Exp(234) == 251 && Exp(235) == 235 && Exp(236) == 203 && Exp(237) == 139 &&
      Exp(238) == 11 && Exp(239) == 22 && Exp(240) == 44
    ensures Exp(241) == 88 && Exp(242) == 176 && Exp(243) == 125 && Exp(244) == 250 && Exp(245) == 233 &&
      Exp(246) == 207 && Exp(247) == 131 && Exp(248) == 27
    ensures Exp(249) == 54 && Exp(250) == 108 && Exp(251) == 216 && Exp(252) == 173 && Exp(253) == 71 &&
      Exp(254) == 142 && Exp(255) == 1
  {
    hide Exp;
    Next(224, 18); Next(225, 36); Next(226, 72); Next(227, 144);
    Next(228, 61); Next(229, 122); Next(230, 244); Next(231, 245);
    Next(232, 247); Next(233, 243); Next(234, 251); Next(235, 235);
    Next(236, 203); Next(237, 139); Next(238, 11); Next(239, 22);
    Next(240, 44); Next(241, 88); Next(242, 176); Next(243, 125);
    Next(244, 250); Next(245, 233); Next(246, 207); Next(247, 131);
    Next(248, 27); Next(249, 54); Next(250, 108); Next(251, 216);
    Next(252, 173); Next(253, 71); Next(254, 142);
  }

  lemma LogRow0()
    ensures Log(1) == 0 && Log(2) == 1 && Log(3) == 25 && Log(4) == 2 && Log(5) == 50 && Log(6) == 26 &&
      Log(7) == 198 && Log(8) == 3
    ensures Log(9) == 223 && Log(10) == 51 && Log(11) == 238 && Log(12) == 27 && Log(13) == 104 && Log(14) == 199 &&
      Log(15) == 75
  {
    assert IntOf(1) == 1 && IntOf(2) == 2 && IntOf(3) == 3 && IntOf(4) == 4 && IntOf(5) == 5 && IntOf(6) == 6 &&
      IntOf(7) == 7 && IntOf(8) == 8;
    assert IntOf(9) == 9 && IntOf(10) == 10 && IntOf(11) == 11 && IntOf(12) == 12 && IntOf(13) == 13 &&
      IntOf(14) == 14 && IntOf(15) == 15;
    hide IntOf;
    assert LOG_TABLE[0][1] == 0 && LOG_TABLE[0][2] == 1 && LOG_TABLE[0][3] == 25 && LOG_TABLE[0][4] == 2 &&
      LOG_TABLE[0][5] == 50 && LOG_TABLE[0][6] == 26 && LOG_TABLE[0][7] == 198 && LOG_TABLE[0][8] == 3;
    assert LOG_TABLE[0][9] == 223 && LOG_TABLE[0][10] == 51 && LOG_TABLE[0][11] == 238 && LOG_TABLE[0][12] == 27 &&
      LOG_TABLE[0][13] == 104 && LOG_TABLE[0][14] == 199 && LOG_TABLE[0][15] == 75;
  }

  lemma LogRow1()
    ensures Log(16) == 4 && Log(17) == 100 && Log(18) == 224 && Log(19) == 14 && Log(20) == 52 && Log(21) == 141 &&
      Log(22) == 239 && Log(23) == 129
    ensures Log(24) == 28 && Log(25) == 193 && Log(26) == 105 && Log(27) == 248 && Log(28) == 200 && Log(29) == 8 &&
      Log(30) == 76 && Log(31) == 113
  {
    assert IntOf(16) == 16 && IntOf(17) == 17 && IntOf(18) == 18 && IntOf(19) == 19 && IntOf(20) == 20 &&
      IntOf(21) == 21 && IntOf(22) == 22 && IntOf(23) == 23;
    assert IntOf(24) == 24 && IntOf(25) == 25 && IntOf(26) == 26 && IntOf(27) == 27 && IntOf(28) == 28 &&
      IntOf(29) == 29 && IntOf(30) == 30 && IntOf(31) == 31;
    hide IntOf;
    assert LOG_TABLE[1][0] == 4 && LOG_TABLE[1][1] == 100 && LOG_TABLE[1][2] == 224 && LOG_TABLE[1][3] == 14 &&
      LOG_TABLE[1][4] == 52 && LOG_TABLE[1][5] == 141 && LOG_TABLE[1][6] == 239 && LOG_TABLE[1][7] == 129;
    assert LOG_TABLE[1][8] == 28 && LOG_TABLE[1][9] == 193 && LOG_TABLE[1][10] == 105 && LOG_TABLE[1][11] == 248 &&
      LOG_TABLE[1][12] == 200 && LOG_TABLE[1][13] == 8 && LOG_TABLE[1][14] == 76 && LOG_TABLE[1][15] == 113;
  }

  lemma LogRow2()
    ensures Log(32) == 5 && Log(33) == 138 && Log(34) == 101 && Log(35) == 47 && Log(36) == 225 && Log(37) == 36 &&
      Log(38) == 15 && Log(39) == 33
    ensures Log(40) == 53 && Log(41) == 147 && Log(42) == 142 && Log(43) == 218 && Log(44) == 240 && Log(45) == 18 &&
      Log(46) == 130 && Log(47) == 69
  {
    assert IntOf(32) == 32 && IntOf(33) == 33 && IntOf(34) == 34 && IntOf(35) == 35 && IntOf(36) == 36 &&
      IntOf(37) == 37 && IntOf(38) == 38 && IntOf(39) == 39;
    assert IntOf(40) == 40 && IntOf(41) == 41 && IntOf(42) == 42 && IntOf(43) == 43 && IntOf(44) == 44 &&
      IntOf(45) == 45 && IntOf(46) == 46 && IntOf(47) == 47;
    hide IntOf;
    assert LOG_TABLE[2][0] == 5 && LOG_TABLE[2][1] == 138 && LOG_TABLE[2][2] == 101 && LOG_TABLE[2][3] == 47 &&
      LOG_TABLE[2][4] == 225 && LOG_TABLE[2][5] == 36 && LOG_TABLE[2][6] == 15 && LOG_TABLE[2][7] == 33;
    assert LOG_TABLE[2][8] == 53 && LOG_TABLE[2][9] == 147 && LOG_TABLE[2][10] == 142 && LOG_TABLE[2][11] == 218 &&
      LOG_TABLE[2][12] == 240 && LOG_TABLE[2][13] == 18 && LOG_TABLE[2][14] == 130 && LOG_TABLE[2][15] == 69;
  }

  lemma LogRow3()
    ensures Log(48) == 29 && Log(49) == 181 && Log(50) == 194 && Log(51) == 125 && Log(52) == 106 && Log(53) == 39 &&
      Log(54) == 249 && Log(55) == 185
    ensures Log(56) == 201 && Log(57) == 154 && Log(58) == 9 && Log(59) == 120 && Log(60) == 77 && Log(61) == 228 &&
      Log(62) == 114 && Log(63) == 166
  {
    assert IntOf(48) == 48 && IntOf(49) == 49 && IntOf(50) == 50 && IntOf(51) == 51 && IntOf(52) == 52 &&
      IntOf(53) == 53 && IntOf(54) == 54 && IntOf(55) == 55;
    assert IntOf(56) == 56 && IntOf(57) == 57 && IntOf(58) == 58 && IntOf(59) == 59 && IntOf(60) == 60 &&
      IntOf(61) == 61 && IntOf(62) == 62 && IntOf(63) == 63;
    hide IntOf;
    assert LOG_TABLE[3][0] == 29 && LOG_TABLE[3][1] == 181 && LOG_TABLE[3][2] == 194 && LOG_TABLE[3][3] == 125 &&
      LOG_TABLE[3][4] == 106 && LOG_TABLE[3][5] == 39 && LOG_TABLE[3][6] == 249 && LOG_TABLE[3][7] == 185;
    assert LOG_TABLE[3][8] == 201 && LOG_TABLE[3][9] == 154 && LOG_TABLE[3][10] == 9 && LOG_TABLE[3][11] == 120 &&
      LOG_TABLE[3][12] == 77 && LOG_TABLE[3][13] == 228 && LOG_TABLE[3][14] == 114 && LOG_TABLE[3][15] == 166;
  }

  lemma LogRow4()
    ensures Log(64) == 6 && Log(65) == 191 && Log(66) == 139 && Log(67) == 98 && Log(68) == 102 && Log(69) == 221 &&
      Log(70) == 48 && Log(71) == 253
    ensures Log(72) == 226 && Log(73) == 152 && Log(74) == 37 && Log(75) == 179 && Log(76) == 16 && Log(77) == 145 &&
      Log(78) == 34 && Log(79) == 136
  {
    assert IntOf(64) == 64 && IntOf(65) == 65 && IntOf(66) == 66 && IntOf(67) == 67 && IntOf(68) == 68 &&
      IntOf(69) == 69 && IntOf(70) == 70 && IntOf(71) == 71;
    assert IntOf(72) == 72 && IntOf(73) == 73 && IntOf(74) == 74 && IntOf(75) == 75 && IntOf(76) == 76 &&
      IntOf(77) == 77 && IntOf(78) == 78 && IntOf(79) == 79;
    hide IntOf;
    assert LOG_TABLE[4][0] == 6 && LOG_TABLE[4][1] == 191 && LOG_TABLE[4][2] == 139 && LOG_TABLE[4][3] == 98 &&
      LOG_TABLE[4][4] == 102 && LOG_TABLE[4][5] == 221 && LOG_TABLE[4][6] == 48 && LOG_TABLE[4][7] == 253;
    assert LOG_TABLE[4][8] == 226 && LOG_TABLE[4][9] == 152 && LOG_TABLE[4][10] == 37 && LOG_TABLE[4][11] == 179 &&
      LOG_TABLE[4][12] == 16 && LOG_TABLE[4][13] == 145 && LOG_TABLE[4][14] == 34 && LOG_TABLE[4][15] == 136;
  }

  lemma LogRow5()
    ensures Log(80) == 54 && Log(81) == 208 && Log(82) == 148 && Log(83) == 206 && Log(84) == 143 && Log(85) == 150 &&
      Log(86) == 219 && Log(87) == 189
    ensures Log(88) == 241 && Log(89) == 210 && Log(90) == 19 && Log(91) == 92 && Log(92) == 131 && Log(93) == 56 &&
      Log(94) == 70 && Log(95) == 64
  {
    assert IntOf(80) == 80 && IntOf(81) == 81 && IntOf(82) == 82 && IntOf(83) == 83 && IntOf(84) == 84 &&
      IntOf(85) == 85 && IntOf(86) == 86 && IntOf(87) == 87;
    assert IntOf(88) == 88 && IntOf(89) == 89 && IntOf(90) == 90 && IntOf(91) == 91 && IntOf(92) == 92 &&
      IntOf(93) == 93 && IntOf(94) == 94 && IntOf(95) == 95;
    hide IntOf;
    assert LOG_TABLE[5][0] == 54 && LOG_TABLE[5][1] == 208 && LOG_TABLE[5][2] == 148 && LOG_TABLE[5][3] == 206 &&
      LOG_TABLE[5][4] == 143 && LOG_TABLE[5][5] == 150 && LOG_TABLE[5][6] == 219 && LOG_TABLE[5][7] == 189;
    assert LOG_TABLE[5][8] == 241 && LOG_TABLE[5][9] == 210 && LOG_TABLE[5][10] == 19 && LOG_TABLE[5][11] == 92 &&
      LOG_TABLE[5][12] == 131 && LOG_TABLE[5][13] == 56 && LOG_TABLE[5][14] == 70 && LOG_TABLE[5][15] == 64;
  }

  lemma LogRow6()
    ensures Log(96) == 30 && Log(97) == 66 && Log(98) == 182 && Log(99) == 163 && Log(100) == 195 && Log(101) == 72 &&
      Log(102) == 126 && Log(103) == 110
    ensures Log(104) == 107 && Log(105) == 58 && Log(106) == 40 && Log(107) == 84 && Log(108) == 250 &&
      Log(109) == 133 && Log(110) == 186 && Log(111) == 61
  {
    assert IntOf(96) == 96 && IntOf(97) == 97 && IntOf(98) == 98 && IntOf(99) == 99 && IntOf(100) == 100 &&
      IntOf(101) == 101 && IntOf(102) == 102 && IntOf(103) == 103;
    assert IntOf(104) == 104 && IntOf(105) == 105 && IntOf(106) == 106 && IntOf(107) == 107 && IntOf(108) == 108 &&
      IntOf(109) == 109 && IntOf(110) == 110 && IntOf(111) == 111;
    hide IntOf;
    assert LOG_TABLE[6][0] == 30 && LOG_TABLE[6][1] == 66 && LOG_TABLE[6][2] == 182 && LOG_TABLE[6][3] == 163 &&
      LOG_TABLE[6][4] == 195 && LOG_TABLE[6][5] == 72 && LOG_TABLE[6][6] == 126 && LOG_TABLE[6][7] == 110;
    assert LOG_TABLE[6][8] == 107 && LOG_TABLE[6][9] == 58 && LOG_TABLE[6][10] == 40 && LOG_TABLE[6][11] == 84 &&
      LOG_TABLE[6][12] == 250 && LOG_TABLE[6][13] == 133 && LOG_TABLE[6][14] == 186 && LOG_TABLE[6][15] == 61;
  }

  lemma LogRow7()
    ensures Log(112) == 202 && Log(113) == 94 && Log(114) == 155 && Log(115) == 159 && Log(116) == 10 &&
      Log(117) == 21 && Log(118) == 121 && Log(119) == 43
    ensures Log(120) == 78 && Log(121) == 212 && Log(122) == 229 && Log(123) == 172 && Log(124) == 115 &&
      Log(125) == 243 && Log(126) == 167 && Log(127) == 87
  {
    assert IntOf(112) == 112 && IntOf(113) == 113 && IntOf(114) == 114 && IntOf(115) == 115 && IntOf(116) == 116 &&
      IntOf(117) == 117 && IntOf(118) == 118 && IntOf(119) == 119;
    assert IntOf(120) == 120 && IntOf(121) == 121 && IntOf(122) == 122 && IntOf(123) == 123 && IntOf(124) == 124 &&
      IntOf(125) == 125 && IntOf(126) == 126 && IntOf(127) == 127;
    hide IntOf;
    assert LOG_TABLE[7][0] == 202 && LOG_TABLE[7][1] == 94 && LOG_TABLE[7][2] == 155 && LOG_TABLE[7][3] == 159 &&
      LOG_TABLE[7][4] == 10 && LOG_TABLE[7][5] == 21 && LOG_TABLE[7][6] == 121 && LOG_TABLE[7][7] == 43;
    assert LOG_TABLE[7][8] == 78 && LOG_TABLE[7][9] == 212 && LOG_TABLE[7][10] == 229 && LOG_TABLE[7][11] == 172 &&
      LOG_TABLE[7][12] == 115 && LOG_TABLE[7][13] == 243 && LOG_TABLE[7][14] == 167 && LOG_TABLE[7][15] == 87;
  }

  lemma LogRow8()
    ensures Log(128) == 7 && Log(129) == 112 && Log(130) == 192 && Log(131) == 247 && Log(132) == 140 &&
      Log(133) == 128 && Log(134) == 99 && Log(135) == 13
    ensures Log(136) == 103 && Log(137) == 74 && Log(138) == 222 && Log(139) == 237 && Log(140) == 49 &&
      Log(141) == 197 && Log(142) == 254 && Log(143) == 24
  {
    assert IntOf(128) == 128 && IntOf(129) == 129 && IntOf(130) == 130 && IntOf(131) == 131 && IntOf(132) == 132 &&
      IntOf(133) == 133 && IntOf(134) == 134 && IntOf(135) == 135;
    assert IntOf(136) == 136 && IntOf(137) == 137 && IntOf(138) == 138 && IntOf(139) == 139 && IntOf(140) == 140 &&
      IntOf(141) == 141 && IntOf(142) == 142 && IntOf(143) == 143;
    hide IntOf;
    assert LOG_TABLE[8][0] == 7 && LOG_TABLE[8][1] == 112 && LOG_TABLE[8][2] == 192 && LOG_TABLE[8][3] == 247 &&
      LOG_TABLE[8][4] == 140 && LOG_TABLE[8][5] == 128 && LOG_TABLE[8][6] == 99 && LOG_TABLE[8][7] == 13;
    assert LOG_TABLE[8][8] == 103 && LOG_TABLE[8][9] == 74 && LOG_TABLE[8][10] == 222 && LOG_TABLE[8][11] == 237 &&
      LOG_TABLE[8][12] == 49 && LOG_TABLE[8][13] == 197 && LOG_TABLE[8][14] == 254 && LOG_TABLE[8][15] == 24;
  }

  lemma LogRow9()
    ensures Log(144) == 227 && Log(145) == 165 && Log(146) == 153 && Log(147) == 119 && Log(148) == 38 &&
      Log(149) == 184 && Log(150) == 180 && Log(151) == 124
    ensures Log(152) == 17 && Log(153) == 68 && Log(154) == 146 && Log(155) == 217 && Log(156) == 35 &&
      Log(157) == 32 && Log(158) == 137 && Log(159) == 46
  {
    assert IntOf(144) == 144 && IntOf(145) == 145 && IntOf(146) == 146 && IntOf(147) == 147 && IntOf(148) == 148 &&
      IntOf(149) == 149 && IntOf(150) == 150 && IntOf(151) == 151;
    assert IntOf(152) == 152 && IntOf(153) == 153 && IntOf(154) == 154 && IntOf(155) == 155 && IntOf(156) == 156 &&
      IntOf(157) == 157 && IntOf(158) == 158 && IntOf(159) == 159;
    hide IntOf;
    assert LOG_TABLE[9][0] == 227 && LOG_TABLE[9][1] == 165 && LOG_TABLE[9][2] == 153 && LOG_TABLE[9][3] == 119 &&
      LOG_TABLE[9][4] == 38 && LOG_TABLE[9][5] == 184 && LOG_TABLE[9][6] == 180 && LOG_TABLE[9][7] == 124;
    assert LOG_TABLE[9][8] == 17 && LOG_TABLE[9][9] == 68 && LOG_TABLE[9][10] == 146 && LOG_TABLE[9][11] == 217 &&
      LOG_TABLE[9][12] == 35 && LOG_TABLE[9][13] == 32 && LOG_TABLE[9][14] == 137 && LOG_TABLE[9][15] == 46;
  }

  lemma LogRow10()
    ensures Log(160) == 55 && Log(161) == 63 && Log(162) == 209 && Log(163) == 91 && Log(164) == 149 &&
      Log(165) == 188 && Log(166) == 207 && Log(167) == 205
    ensures Log(168) == 144 && Log(169) == 135 && Log(170) == 151 && Log(171) == 178 && Log(172) == 220 &&
      Log(173) == 252 && Log(174) == 190 && Log(175) == 97
  {
    assert IntOf(160) == 160 && IntOf(161) == 161 && IntOf(162) == 162 && IntOf(163) == 163 && IntOf(164) == 164 &&
      IntOf(165) == 165 && IntOf(166) == 166 && IntOf(167) == 167;
    assert IntOf(168) == 168 && IntOf(169) == 169 && IntOf(170) == 170 && IntOf(171) == 171 && IntOf(172) == 172 &&
      IntOf(173) == 173 && IntOf(174) == 174 && IntOf(175) == 175;
    hide IntOf;
    assert LOG_TABLE[10][0] == 55 && LOG_TABLE[10][1] == 63 && LOG_TABLE[10][2] == 209 && LOG_TABLE[10][3] == 91 &&
      LOG_TABLE[10][4] == 149 && LOG_TABLE[10][5] == 188 && LOG_TABLE[10][6] == 207 && LOG_TABLE[10][7] == 205;
    assert LOG_TABLE[10][8] == 144 && LOG_TABLE[10][9] == 135 && LOG_TABLE[10][10] == 151 && LOG_TABLE[10][11] == 178 &&
      LOG_TABLE[10][12] == 220 && LOG_TABLE[10][13] == 252 && LOG_TABLE[10][14] == 190 && LOG_TABLE[10][15] == 97;
  }

  lemma LogRow11()
    ensures Log(176) == 242 && Log(177) == 86 && Log(178) == 211 && Log(179) == 171 && Log(180) == 20 &&
      Log(181) == 42 && Log(182) == 93 && Log(183) == 158
    ensures Log(184) == 132 && Log(185) == 60 && Log(186) == 57 && Log(187) == 83 && Log(188) == 71 &&
      Log(189) == 109 && Log(190) == 65 && Log(191) == 162
  {
    assert IntOf(176) == 176 && IntOf(177) == 177 && IntOf(178) == 178 && IntOf(179) == 179 && IntOf(180) == 180 &&
      IntOf(181) == 181 && IntOf(182) == 182 && IntOf(183) == 183;
    assert IntOf(184) == 184 && IntOf(185) == 185 && IntOf(186) == 186 && IntOf(187) == 187 && IntOf(188) == 188 &&
      IntOf(189) == 189 && IntOf(190) == 190 && IntOf(191) == 191;
    hide IntOf;
    assert LOG_TABLE[11][0] == 242 && LOG_TABLE[11][1] == 86 && LOG_TABLE[11][2] == 211 && LOG_TABLE[11][3] == 171 &&
      LOG_TABLE[11][4] == 20 && LOG_TABLE[11][5] == 42 && LOG_TABLE[11][6] == 93 && LOG_TABLE[11][7] == 158;
    assert LOG_TABLE[11][8] == 132 && LOG_TABLE[11][9] == 60 && LOG_TABLE[11][10] == 57 && LOG_TABLE[11][11] == 83 &&
      LOG_TABLE[11][12] == 71 && LOG_TABLE[11][13] == 109 && LOG_TABLE[11][14] == 65 && LOG_TABLE[11][15] == 162;
  }

  lemma LogRow12()
    ensures Log(192) == 31 && Log(193) == 45 && Log(194) == 67 && Log(195) == 216 && Log(196) == 183 &&
      Log(197) == 123 && Log(198) == 164 && Log(199) == 118
    ensures Log(200) == 196 && Log(201) == 23 && Log(202) == 73 && Log(203) == 236 && Log(204) == 127 &&
      Log(205) == 12 && Log(206) == 111 && Log(207) == 246
  {
    assert IntOf(192) == 192 && IntOf(193) == 193 && IntOf(194) == 194 && IntOf(195) == 195 && IntOf(196) == 196 &&
      IntOf(197) == 197 && IntOf(198) == 198 && IntOf(199) == 199;
    assert IntOf(200) == 200 && IntOf(201) == 201 && IntOf(202) == 202 && IntOf(203) == 203 && IntOf(204) == 204 &&
      IntOf(205) == 205 && IntOf(206) == 206 && IntOf(207) == 207;
    hide IntOf;
    assert LOG_TABLE[12][0] == 31 && LOG_TABLE[12][1] == 45 && LOG_TABLE[12][2] == 67 && LOG_TABLE[12][3] == 216 &&
      LOG_TABLE[12][4] == 183 && LOG_TABLE[12][5] == 123 && LOG_TABLE[12][6] == 164 && LOG_TABLE[12][7] == 118;
    assert LOG_TABLE[12][8] == 196 && LOG_TABLE[12][9] == 23 && LOG_TABLE[12][10] == 73 && LOG_TABLE[12][11] == 236 &&
      LOG_TABLE[12][12] == 127 && LOG_TABLE[12][13] == 12 && LOG_TABLE[12][14] == 111 && LOG_TABLE[12][15] == 246;
  }

  lemma LogRow13()
    ensures Log(208) == 108 && Log(209) == 161 && Log(210) == 59 && Log(211) == 82 && Log(212) == 41 &&
      Log(213) == 157 && Log(214) == 85 && Log(215) == 170
    ensures Log(216) == 251 && Log(217) == 96 && Log(218) == 134 && Log(219) == 177 && Log(220) == 187 &&
      Log(221) == 204 && Log(222) == 62 && Log(223) == 90
  {
    assert IntOf(208) == 208 && IntOf(209) == 209 && IntOf(210) == 210 && IntOf(211) == 211 && IntOf(212) == 212 &&
      IntOf(213) == 213 && IntOf(214) == 214 && IntOf(215) == 215;
    assert IntOf(216) == 216 && IntOf(217) == 217 && IntOf(218) == 218 && IntOf(219) == 219 && IntOf(220) == 220 &&
      IntOf(221) == 221 && IntOf(222) == 222 && IntOf(223) == 223;
    hide IntOf;
    assert LOG_TABLE[13][0] == 108 && LOG_TABLE[13][1] == 161 && LOG_TABLE[13][2] == 59 && LOG_TABLE[13][3] == 82 &&
      LOG_TABLE[13][4] == 41 && LOG_TABLE[13][5] == 157 && LOG_TABLE[13][6] == 85 && LOG_TABLE[13][7] == 170;
    assert LOG_TABLE[13][8] == 251 && LOG_TABLE[13][9] == 96 && LOG_TABLE[13][10] == 134 && LOG_TABLE[13][11] == 177 &&
      LOG_TABLE[13][12] == 187 && LOG_TABLE[13][13] == 204 && LOG_TABLE[13][14] == 62 && LOG_TABLE[13][15] == 90;
  }

  lemma LogRow14()
    ensures Log(224) == 203 && Log(225) == 89 && Log(226) == 95 && Log(227) == 176 && Log(228) == 156 &&
      Log(229) == 169 && Log(230) == 160 && Log(231) == 81
    ensures Log(232) == 11 && Log(233) == 245 && Log(234) == 22 && Log(235) == 235 && Log(236) == 122 &&
      Log(237) == 117 && Log(238) == 44 && Log(239) == 215
  {
    assert IntOf(224) == 224 && IntOf(225) == 225 && IntOf(226) == 226 && IntOf(227) == 227 && IntOf(228) == 228 &&
      IntOf(229) == 229 && IntOf(230) == 230 && IntOf(231) == 231;
    assert IntOf(232) == 232 && IntOf(233) == 233 && IntOf(234) == 234 && IntOf(235) == 235 && IntOf(236) == 236 &&
      IntOf(237) == 237 && IntOf(238) == 238 && IntOf(239) == 239;
    hide IntOf;
    assert LOG_TABLE[14][0] == 203 && LOG_TABLE[14][1] == 89 && LOG_TABLE[14][2] == 95 && LOG_TABLE[14][3] == 176 &&
      LOG_TABLE[14][4] == 156 && LOG_TABLE[14][5] == 169 && LOG_TABLE[14][6] == 160 && LOG_TABLE[14][7] == 81;
    assert LOG_TABLE[14][8] == 11 && LOG_TABLE[14][9] == 245 && LOG_TABLE[14][10] == 22 && LOG_TABLE[14][11] == 235 &&
      LOG_TABLE[14][12] == 122 && LOG_TABLE[14][13] == 117 && LOG_TABLE[14][14] == 44 && LOG_TABLE[14][15] == 215;
  }

  lemma LogRow15()
    ensures Log(240) == 79 && Log(241) == 174 && Log(242) == 213 && Log(243) == 233 && Log(244) == 230 &&
      Log(245) == 231 && Log(246) == 173 && Log(247) == 232
    ensures Log(248) == 116 && Log(249) == 214 && Log(250) == 244 && Log(251) == 234 && Log(252) == 168 &&
      Log(253) == 80 && Log(254) == 88 && Log(255) == 175
  {
    assert IntOf(240) == 240 && IntOf(241) == 241 && IntOf(242) == 242 && IntOf(243) == 243 && IntOf(244) == 244 &&
      IntOf(245) == 245 && IntOf(246) == 246 && IntOf(247) == 247;
    assert IntOf(248) == 248 && IntOf(249) == 249 && IntOf(250) == 250 && IntOf(251) == 251 && IntOf(252) == 252 &&
      IntOf(253) == 253 && IntOf(254) == 254 && IntOf(255) == 255;
    hide IntOf;
    assert LOG_TABLE[15][0] == 79 && LOG_TABLE[15][1] == 174 && LOG_TABLE[15][2] == 213 && LOG_TABLE[15][3] == 233 &&
      LOG_TABLE[15][4] == 230 && LOG_TABLE[15][5] == 231 && LOG_TABLE[15][6] == 173 && LOG_TABLE[15][7] == 232;
    assert LOG_TABLE[15][8] == 116 && LOG_TABLE[15][9] == 214 && LOG_TABLE[15][10] == 244 && LOG_TABLE[15][11] == 234 &&
      LOG_TABLE[15][12] == 168 && LOG_TABLE[15][13] == 80 && LOG_TABLE[15][14] == 88 && LOG_TABLE[15][15] == 175;
  }

  lemma LogOfExp(k: nat)
    requires k < 255
    ensures Log(Exp(k)) == k
    ensures Exp(255) == 1
  {
    hide Exp, Log;
    ExpOne();
    ExpRow0(); ExpRow1(); ExpRow2(); ExpRow3(); ExpRow4(); ExpRow5(); ExpRow6(); ExpRow7();
    LogRow0(); LogRow1(); LogRow2(); LogRow3(); LogRow4(); LogRow5(); LogRow6(); LogRow7();
    LogRow8(); LogRow9(); LogRow10(); LogRow11(); LogRow12(); LogRow13(); LogRow14(); LogRow15();
  }

  // Every non-zero element is a power of 2, and the log table says which one.
  lemma ExpOfLog(a: byte)
    requires a != 0
    ensures Exp(Log(a)) == a && Log(a) < 255
  {
    hide Exp, Log;
    ExpOne();
    ExpRow0(); ExpRow1(); ExpRow2(); ExpRow3(); ExpRow4(); ExpRow5(); ExpRow6(); ExpRow7();
    LogRow0(); LogRow1(); LogRow2(); LogRow3(); LogRow4(); LogRow5(); LogRow6(); LogRow7();
    LogRow8(); LogRow9(); LogRow10(); LogRow11(); LogRow12(); LogRow13(); LogRow14(); LogRow15();
  }

  lemma {:induction false} MulExp(j: nat, k: nat)
    ensures Mul(Exp(j), Exp(k)) == Exp(j + k)
    decreases j
  {
    hide Mul, Xtime;
    if j == 0 {
      MulOneLeft(Exp(k));
    } else {
      MulXtime(Exp(j - 1), Exp(k));
      MulExp(j - 1, k);
    }
  }

  lemma ExpPeriod(k: nat)
    ensures Exp(k + 255) == Exp(k)
  {
    hide *;
    LogOfExp(0);
    MulExp(255, k);
    MulOneLeft(Exp(k));
  }

  // ---- the remaining field laws ----

  lemma MulComm(a: byte, b: byte)
    ensures Mul(a, b) == Mul(b, a)
  {
    hide *;
    MulZero(a);
    MulZero(b);
    if a != 0 && b != 0 {
      ExpOfLog(a);
      ExpOfLog(b);
      MulExp(Log(a), Log(b));
      MulExp(Log(b), Log(a));
      assert Log(a) + Log(b) == Log(b) + Log(a);
    }
  }

  lemma MulAssoc(a: byte, b: byte, c: byte)
    ensures Mul(Mul(a, b), c) == Mul(a, Mul(b, c))
  {
    hide *;
    MulZero(a);
    MulZero(b);
    MulZero(c);
    MulZero(Mul(b, c));
    MulZero(Mul(a, b));
    if a != 0 && b != 0 && c != 0 {
      ExpOfLog(a);
      ExpOfLog(b);
      ExpOfLog(c);
      MulExp(Log(a), Log(b));
      MulExp(Log(b), Log(c));
      MulExp(Log(a) + Log(b), Log(c));
      MulExp(Log(a), Log(b) + Log(c));
      assert Log(a) + Log(b) + Log(c) == Log(a) + (Log(b) + Log(c));
    }
  }

  lemma MulOne(a: byte)
    ensures Mul(1, a) == a && Mul(a, 1) == a
  {
    hide *;
    MulOneLeft(a);
    MulComm(1, a);
  }

  // The multiplicative inverse (and 0 for 0).
  function Inv(a: byte): byte {
    if a == 0 then 0 else ExpOfLog(a); Exp(255 - Log(a))
  }

  lemma MulInv(a: byte)
    requires a != 0
    ensures Mul(a, Inv(a)) == 1 && Mul(Inv(a), a) == 1 && Inv(a) != 0
  {
    hide Mul, Exp, Log;
    ExpOfLog(a);
    LogOfExp(0);
    MulExp(Log(a), 255 - Log(a));
    MulComm(a, Inv(a));
    MulZero(a);
  }

  lemma NoZeroDivisors(a: byte, b: byte)
    ensures Mul(a, b) == 0 <==> a == 0 || b == 0
  {
    hide *;
    MulZero(a);
    MulZero(b);
    if a != 0 && Mul(a, b) == 0 {
      MulInv(a);
      MulAssoc(Inv(a), a, b);
      MulOne(b);
      MulZero(Inv(a));
    }
  }

  // An inverse is unique, and determines its element.
  lemma ExpNonZero(k: nat)
    ensures Exp(k) != 0
    decreases k
  {
    hide Exp;
    if k < 255 {
      MulExp(k, 255 - k);
      LogOfExp(0);
      MulZero(Exp(255 - k));
    } else {
      ExpPeriod(k - 255);
      ExpNonZero(k - 255);
    }
  }

  // The full table of products of two elements splits along the two nibbles of an operand.
  lemma MulNibbles(a: byte, b: byte)
    ensures Mul(a, b) == Add(Mul(a, b & 0x0f), Mul(a, b & 0xf0))
  {
    hide Mul;
    assert b == Add(b & 0x0f, b & 0xf0);
    MulAdd(a, b & 0x0f, b & 0xf0);
  }
}
