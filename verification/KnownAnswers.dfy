/** A known answer: the handshake example of section 1.3 of RFC 6455, from the key to the accepted text. */
module KnownAnswers {
  import opened Bytes
  import opened Sha1
  import WS = WebSocket

  const H1 := Regs(0x67452301, 0xEFCDAB89, 0x98BADCFE, 0x10325476, 0xC3D2E1F0)
  const H2 := Regs(0x5BCF7727, 0x7327416A, 0xBE7BFBF9, 0x5A781878, 0x5E46A4E2)

  /** The registers before step t, as the five newest values of register a. */
  predicate Trail(h: Regs, b: Block, t: nat, a4: bv32, a3: bv32, a2: bv32, a1: bv32, a0: bv32) {
    Rounds(h, b, t) == Regs(a4, a3, Rol(a2, 30), Rol(a1, 30), Rol(a0, 30))
  }

  lemma Go(h: Regs, b: Block, t: nat, a4: bv32, a3: bv32, a2: bv32, a1: bv32, a0: bv32, w: bv32, a5: bv32)
    requires Trail(h, b, t, a4, a3, a2, a1, a0) && W(b, t) == w
    requires Sum(Rol(a4, 5), F(t, a3, Rol(a2, 30), Rol(a1, 30)), Rol(a0, 30), w, K(t)) == a5
    ensures Trail(h, b, t + 1, a5, a4, a3, a2, a1)
  {
    hide W, Rol, F, K, Sum;
  }

  lemma Word(b: Block, t: nat, w3: bv32, w8: bv32, w14: bv32, w16: bv32, w: bv32)
    requires t >= 16 && W(b, t - 3) == w3 && W(b, t - 8) == w8 && W(b, t - 14) == w14 && W(b, t - 16) == w16
    requires Mix(w3, w8, w14, w16) == w
    ensures W(b, t) == w
  {
    hide Mix;
  }

  lemma Start1(b: Block)
    ensures Trail(H1, b, 0, 0x67452301, 0xEFCDAB89, 0x62EB73FA, 0x40C951D8, 0x0F4B87C3)
  {
    hide W;
  }

  lemma Start2(b: Block)
    ensures Trail(H2, b, 0, 0x5BCF7727, 0x7327416A, 0xF9EFEFE6, 0x69E061E1, 0x791A9389)
  {
    hide W;
  }

  /** The words of the first block. */
  ghost predicate IsFirst(b: Block) {
    && W(b, 0) == 0x6447686C && W(b, 1) == 0x49484E68 && W(b, 2) == 0x62584273 && W(b, 3) == 0x5A534275
    && W(b, 4) == 0x6232356A && W(b, 5) == 0x5A513D3D && W(b, 6) == 0x32353845 && W(b, 7) == 0x41464135
    && W(b, 8) == 0x2D453931 && W(b, 9) == 0x342D3437 && W(b, 10) == 0x44412D39 && W(b, 11) == 0x3543412D
    && W(b, 12) == 0x43354142 && W(b, 13) == 0x30444338 && W(b, 14) == 0x35423131 && W(b, 15) == 0x80000000
  }

  lemma First10(b: Block)
    requires IsFirst(b)
    ensures Trail(H1, b, 10, 0xFAAD2675, 0x32BEB05A, 0x2E0CE601, 0x73553E84, 0x7320B969)
  {
    hide W, Rounds, Trail;
    Start1(b);
    Go(H1, b, 0, 0x67452301, 0xEFCDAB89, 0x62EB73FA, 0x40C951D8, 0x0F4B87C3, 0x6447686C, 0x03FC011F);
    Go(H1, b, 1, 0x03FC011F, 0x67452301, 0xEFCDAB89, 0x62EB73FA, 0x40C951D8, 0x49484E68, 0x2F793F55);
    Go(H1, b, 2, 0x2F793F55, 0x03FC011F, 0x67452301, 0xEFCDAB89, 0x62EB73FA, 0x62584273, 0xBE90EE8F);
    Go(H1, b, 3, 0xBE90EE8F, 0x2F793F55, 0x03FC011F, 0x67452301, 0xEFCDAB89, 0x5A534275, 0x53E039AC);
    Go(H1, b, 4, 0x53E039AC, 0xBE90EE8F, 0x2F793F55, 0x03FC011F, 0x67452301, 0x6232356A, 0xDD8C7C12);
    Go(H1, b, 5, 0xDD8C7C12, 0x53E039AC, 0xBE90EE8F, 0x2F793F55, 0x03FC011F, 0x5A513D3D, 0x7320B969);
    Go(H1, b, 6, 0x7320B969, 0xDD8C7C12, 0x53E039AC, 0xBE90EE8F, 0x2F793F55, 0x32353845, 0x73553E84);
    Go(H1, b, 7, 0x73553E84, 0x7320B969, 0xDD8C7C12, 0x53E039AC, 0xBE90EE8F, 0x41464135, 0x2E0CE601);
    Go(H1, b, 8, 0x2E0CE601, 0x73553E84, 0x7320B969, 0xDD8C7C12, 0x53E039AC, 0x2D453931, 0x32BEB05A);
    Go(H1, b, 9, 0x32BEB05A, 0x2E0CE601, 0x73553E84, 0x7320B969, 0xDD8C7C12, 0x342D3437, 0xFAAD2675);
  }

  lemma First20(b: Block)
    requires IsFirst(b)
    ensures W(b, 16) == 0x363CA02C && W(b, 17) == 0x24E81236 && W(b, 18) == 0x8856B441 && W(b, 19) == 0x06FB3C92
    ensures Trail(H1, b, 20, 0x091AB97C, 0x8DC510B6, 0x7EBB296B, 0xD7DAF575, 0xA004C468)
  {
    hide W, Rounds, Trail;
    First10(b);
    Go(H1, b, 10, 0xFAAD2675, 0x32BEB05A, 0x2E0CE601, 0x73553E84, 0x7320B969, 0x44412D39, 0x5FF4238C);
    Go(H1, b, 11, 0x5FF4238C, 0xFAAD2675, 0x32BEB05A, 0x2E0CE601, 0x73553E84, 0x3543412D, 0x34CEB986);
    Go(H1, b, 12, 0x34CEB986, 0x5FF4238C, 0xFAAD2675, 0x32BEB05A, 0x2E0CE601, 0x43354142, 0x61BDB2BF);
    Go(H1, b, 13, 0x61BDB2BF, 0x34CEB986, 0x5FF4238C, 0xFAAD2675, 0x32BEB05A, 0x30444338, 0xAE1A096E);
    Go(H1, b, 14, 0xAE1A096E, 0x61BDB2BF, 0x34CEB986, 0x5FF4238C, 0xFAAD2675, 0x35423131, 0xE922CC9D);
    Go(H1, b, 15, 0xE922CC9D, 0xAE1A096E, 0x61BDB2BF, 0x34CEB986, 0x5FF4238C, 0x80000000, 0xA004C468);
    Word(b, 16, 0x30444338, 0x2D453931, 0x62584273, 0x6447686C, 0x363CA02C);
    Go(H1, b, 16, 0xA004C468, 0xE922CC9D, 0xAE1A096E, 0x61BDB2BF, 0x34CEB986, 0x363CA02C, 0xD7DAF575);
    Word(b, 17, 0x35423131, 0x342D3437, 0x5A534275, 0x49484E68, 0x24E81236);
    Go(H1, b, 17, 0xD7DAF575, 0xA004C468, 0xE922CC9D, 0xAE1A096E, 0x61BDB2BF, 0x24E81236, 0x7EBB296B);
    Word(b, 18, 0x80000000, 0x44412D39, 0x6232356A, 0x62584273, 0x8856B441);
    Go(H1, b, 18, 0x7EBB296B, 0xD7DAF575, 0xA004C468, 0xE922CC9D, 0xAE1A096E, 0x8856B441, 0x8DC510B6);
    Word(b, 19, 0x363CA02C, 0x3543412D, 0x5A513D3D, 0x5A534275, 0x06FB3C92);
    Go(H1, b, 19, 0x8DC510B6, 0x7EBB296B, 0xD7DAF575, 0xA004C468, 0xE922CC9D, 0x06FB3C92, 0x091AB97C);
  }

  lemma First30(b: Block)
    requires IsFirst(b)
    ensures W(b, 20) == 0x6FB4BCB6 && W(b, 21) == 0x460B16E3 && W(b, 22) == 0x599219AE && W(b, 23) == 0x35BF9369
    ensures W(b, 24) == 0x3267458E && W(b, 25) == 0xF828FD04 && W(b, 26) == 0x753A96A7 && W(b, 27) == 0x6336F612
    ensures W(b, 28) == 0xC3D66383 && W(b, 29) == 0x06EB86F9
    ensures Trail(H1, b, 30, 0x081B63E5, 0x1ABB1C37, 0x571F7D82, 0xEF012F20, 0x748B39A0)
  {
    hide W, Rounds, Trail;
    First20(b);
    Word(b, 20, 0x24E81236, 0x43354142, 0x32353845, 0x6232356A, 0x6FB4BCB6);
    Go(H1, b, 20, 0x091AB97C, 0x8DC510B6, 0x7EBB296B, 0xD7DAF575, 0xA004C468, 0x6FB4BCB6, 0x518470A3);
    Word(b, 21, 0x8856B441, 0x30444338, 0x41464135, 0x5A513D3D, 0x460B16E3);
    Go(H1, b, 21, 0x518470A3, 0x091AB97C, 0x8DC510B6, 0x7EBB296B, 0xD7DAF575, 0x460B16E3, 0xD12F0B56);
    Word(b, 22, 0x06FB3C92, 0x35423131, 0x2D453931, 0x32353845, 0x599219AE);
    Go(H1, b, 22, 0xD12F0B56, 0x518470A3, 0x091AB97C, 0x8DC510B6, 0x7EBB296B, 0x599219AE, 0xBEAFD554);
    Word(b, 23, 0x6FB4BCB6, 0x80000000, 0x342D3437, 0x41464135, 0x35BF9369);
    Go(H1, b, 23, 0xBEAFD554, 0xD12F0B56, 0x518470A3, 0x091AB97C, 0x8DC510B6, 0x35BF9369, 0x250E26EF);
    Word(b, 24, 0x460B16E3, 0x363CA02C, 0x44412D39, 0x2D453931, 0x3267458E);
    Go(H1, b, 24, 0x250E26EF, 0xBEAFD554, 0xD12F0B56, 0x518470A3, 0x091AB97C, 0x3267458E, 0x23D1C91B);
    Word(b, 25, 0x599219AE, 0x24E81236, 0x3543412D, 0x342D3437, 0xF828FD04);
    Go(H1, b, 25, 0x23D1C91B, 0x250E26EF, 0xBEAFD554, 0xD12F0B56, 0x518470A3, 0xF828FD04, 0x748B39A0);
    Word(b, 26, 0x35BF9369, 0x8856B441, 0x43354142, 0x44412D39, 0x753A96A7);
    Go(H1, b, 26, 0x748B39A0, 0x23D1C91B, 0x250E26EF, 0xBEAFD554, 0xD12F0B56, 0x753A96A7, 0xEF012F20);
    Word(b, 27, 0x3267458E, 0x06FB3C92, 0x30444338, 0x3543412D, 0x6336F612);
    Go(H1, b, 27, 0xEF012F20, 0x748B39A0, 0x23D1C91B, 0x250E26EF, 0xBEAFD554, 0x6336F612, 0x571F7D82);
    Word(b, 28, 0xF828FD04, 0x6FB4BCB6, 0x35423131, 0x43354142, 0xC3D66383);
    Go(H1, b, 28, 0x571F7D82, 0xEF012F20, 0x748B39A0, 0x23D1C91B, 0x250E26EF, 0xC3D66383, 0x1ABB1C37);
    Word(b, 29, 0x753A96A7, 0x460B16E3, 0x80000000, 0x30444338, 0x06EB86F9);
    Go(H1, b, 29, 0x1ABB1C37, 0x571F7D82, 0xEF012F20, 0x748B39A0, 0x23D1C91B, 0x06EB86F9, 0x081B63E5);
  }

  lemma First40(b: Block)
    requires IsFirst(b)
    ensures W(b, 30) == 0x73B4FD42 && W(b, 31) == 0xA503C5B8 && W(b, 32) == 0x15CDAE35 && W(b, 33) == 0x531E5DC5
    ensures W(b, 34) == 0x6FB6B7D0 && W(b, 35) == 0x6C16E4AC && W(b, 36) == 0x4DDD36BD && W(b, 37) == 0x35D36946
    ensures W(b, 38) == 0xE8AE8B9C && W(b, 39) == 0x4A933AD0
    ensures Trail(H1, b, 40, 0x2BA2C83E, 0xD0869081, 0x68760824, 0x4CCD2227, 0x9DE793C8)
  {
    hide W, Rounds, Trail;
    First30(b);
    First20(b);
    Word(b, 30, 0x6336F612, 0x599219AE, 0x363CA02C, 0x35423131, 0x73B4FD42);
    Go(H1, b, 30, 0x081B63E5, 0x1ABB1C37, 0x571F7D82, 0xEF012F20, 0x748B39A0, 0x73B4FD42, 0xB7DABC8B);
    Word(b, 31, 0xC3D66383, 0x35BF9369, 0x24E81236, 0x80000000, 0xA503C5B8);
    Go(H1, b, 31, 0xB7DABC8B, 0x081B63E5, 0x1ABB1C37, 0x571F7D82, 0xEF012F20, 0xA503C5B8, 0xA6680A1F);
    Word(b, 32, 0x06EB86F9, 0x3267458E, 0x8856B441, 0x363CA02C, 0x15CDAE35);
    Go(H1, b, 32, 0xA6680A1F, 0xB7DABC8B, 0x081B63E5, 0x1ABB1C37, 0x571F7D82, 0x15CDAE35, 0x1AE360A9);
    Word(b, 33, 0x73B4FD42, 0xF828FD04, 0x06FB3C92, 0x24E81236, 0x531E5DC5);
    Go(H1, b, 33, 0x1AE360A9, 0xA6680A1F, 0xB7DABC8B, 0x081B63E5, 0x1ABB1C37, 0x531E5DC5, 0xEEABA35A);
    Word(b, 34, 0xA503C5B8, 0x753A96A7, 0x6FB4BCB6, 0x8856B441, 0x6FB6B7D0);
    Go(H1, b, 34, 0xEEABA35A, 0x1AE360A9, 0xA6680A1F, 0xB7DABC8B, 0x081B63E5, 0x6FB6B7D0, 0x149BB4D3);
    Word(b, 35, 0x15CDAE35, 0x6336F612, 0x460B16E3, 0x06FB3C92, 0x6C16E4AC);
    Go(H1, b, 35, 0x149BB4D3, 0xEEABA35A, 0x1AE360A9, 0xA6680A1F, 0xB7DABC8B, 0x6C16E4AC, 0x9DE793C8);
    Word(b, 36, 0x531E5DC5, 0xC3D66383, 0x599219AE, 0x6FB4BCB6, 0x4DDD36BD);
    Go(H1, b, 36, 0x9DE793C8, 0x149BB4D3, 0xEEABA35A, 0x1AE360A9, 0xA6680A1F, 0x4DDD36BD, 0x4CCD2227);
    Word(b, 37, 0x6FB6B7D0, 0x06EB86F9, 0x35BF9369, 0x460B16E3, 0x35D36946);
    Go(H1, b, 37, 0x4CCD2227, 0x9DE793C8, 0x149BB4D3, 0xEEABA35A, 0x1AE360A9, 0x35D36946, 0x68760824);
    Word(b, 38, 0x6C16E4AC, 0x73B4FD42, 0x3267458E, 0x599219AE, 0xE8AE8B9C);
    Go(H1, b, 38, 0x68760824, 0x4CCD2227, 0x9DE793C8, 0x149BB4D3, 0xEEABA35A, 0xE8AE8B9C, 0xD0869081);
    Word(b, 39, 0x4DDD36BD, 0xA503C5B8, 0xF828FD04, 0x35BF9369, 0x4A933AD0);
    Go(H1, b, 39, 0xD0869081, 0x68760824, 0x4CCD2227, 0x9DE793C8, 0x149BB4D3, 0x4A933AD0, 0x2BA2C83E);
  }

  lemma First50(b: Block)
    requires IsFirst(b)
    ensures W(b, 40) == 0xCE8628B4 && W(b, 41) == 0x415DBA9E && W(b, 42) == 0x2792F049 && W(b, 43) == 0x8E9B79E7
    ensures W(b, 44) == 0x79C425C5 && W(b, 45) == 0x6353B49D && W(b, 46) == 0x00994218 && W(b, 47) == 0x8A950ED1
    ensures W(b, 48) == 0xAF5D0B99 && W(b, 49) == 0xFD9883DE
    ensures Trail(H1, b, 50, 0x065F8486, 0x7510D04F, 0xABE1748A, 0xDEE4B7A8, 0x72FF334D)
  {
    hide W, Rounds, Trail;
    First40(b);
    First30(b);
    First20(b);
    Word(b, 40, 0x35D36946, 0x15CDAE35, 0x753A96A7, 0x3267458E, 0xCE8628B4);
    Go(H1, b, 40, 0x2BA2C83E, 0xD0869081, 0x68760824, 0x4CCD2227, 0x9DE793C8, 0xCE8628B4, 0xCB8C52D0);
    Word(b, 41, 0xE8AE8B9C, 0x531E5DC5, 0x6336F612, 0xF828FD04, 0x415DBA9E);
    Go(H1, b, 41, 0xCB8C52D0, 0x2BA2C83E, 0xD0869081, 0x68760824, 0x4CCD2227, 0x415DBA9E, 0x4F589A44);
    Word(b, 42, 0x4A933AD0, 0x6FB6B7D0, 0xC3D66383, 0x753A96A7, 0x2792F049);
    Go(H1, b, 42, 0x4F589A44, 0xCB8C52D0, 0x2BA2C83E, 0xD0869081, 0x68760824, 0x2792F049, 0x868829B7);
    Word(b, 43, 0xCE8628B4, 0x6C16E4AC, 0x06EB86F9, 0x6336F612, 0x8E9B79E7);
    Go(H1, b, 43, 0x868829B7, 0x4F589A44, 0xCB8C52D0, 0x2BA2C83E, 0xD0869081, 0x8E9B79E7, 0x6DC6A3D7);
    Word(b, 44, 0x415DBA9E, 0x4DDD36BD, 0x73B4FD42, 0xC3D66383, 0x79C425C5);
    Go(H1, b, 44, 0x6DC6A3D7, 0x868829B7, 0x4F589A44, 0xCB8C52D0, 0x2BA2C83E, 0x79C425C5, 0x5F5F3452);
    Word(b, 45, 0x2792F049, 0x35D36946, 0xA503C5B8, 0x06EB86F9, 0x6353B49D);
    Go(H1, b, 45, 0x5F5F3452, 0x6DC6A3D7, 0x868829B7, 0x4F589A44, 0xCB8C52D0, 0x6353B49D, 0x72FF334D);
    Word(b, 46, 0x8E9B79E7, 0xE8AE8B9C, 0x15CDAE35, 0x73B4FD42, 0x00994218);
    Go(H1, b, 46, 0x72FF334D, 0x5F5F3452, 0x6DC6A3D7, 0x868829B7, 0x4F589A44, 0x00994218, 0xDEE4B7A8);
    Word(b, 47, 0x79C425C5, 0x4A933AD0, 0x531E5DC5, 0xA503C5B8, 0x8A950ED1);
    Go(H1, b, 47, 0xDEE4B7A8, 0x72FF334D, 0x5F5F3452, 0x6DC6A3D7, 0x868829B7, 0x8A950ED1, 0xABE1748A);
    Word(b, 48, 0x6353B49D, 0xCE8628B4, 0x6FB6B7D0, 0x15CDAE35, 0xAF5D0B99);
    Go(H1, b, 48, 0xABE1748A, 0xDEE4B7A8, 0x72FF334D, 0x5F5F3452, 0x6DC6A3D7, 0xAF5D0B99, 0x7510D04F);
    Word(b, 49, 0x00994218, 0x415DBA9E, 0x6C16E4AC, 0x531E5DC5, 0xFD9883DE);
    Go(H1, b, 49, 0x7510D04F, 0xABE1748A, 0xDEE4B7A8, 0x72FF334D, 0x5F5F3452, 0xFD9883DE, 0x065F8486);
  }

  lemma First60(b: Block)
    requires IsFirst(b)
    ensures W(b, 50) == 0x1ED8FFEB && W(b, 51) == 0xF007FF28 && W(b, 52) == 0x425E3674 && W(b, 53) == 0x059631C0
    ensures W(b, 54) == 0xAD6C3C31 && W(b, 55) == 0x860B71D7 && W(b, 56) == 0x87BFC548 && W(b, 57) == 0x3E64F92D
    ensures W(b, 58) == 0x8D0AB761 && W(b, 59) == 0x34E1EE35
    ensures Trail(H1, b, 60, 0x4872D85A, 0xD284F163, 0x0C247C2E, 0x6EF6FEF4, 0x7E1242F2)
  {
    hide W, Rounds, Trail;
    First50(b);
    First40(b);
    First30(b);
    Word(b, 50, 0x8A950ED1, 0x2792F049, 0x4DDD36BD, 0x6FB6B7D0, 0x1ED8FFEB);
    Go(H1, b, 50, 0x065F8486, 0x7510D04F, 0xABE1748A, 0xDEE4B7A8, 0x72FF334D, 0x1ED8FFEB, 0x0E5D77C4);
    Word(b, 51, 0xAF5D0B99, 0x8E9B79E7, 0x35D36946, 0x6C16E4AC, 0xF007FF28);
    Go(H1, b, 51, 0x0E5D77C4, 0x065F8486, 0x7510D04F, 0xABE1748A, 0xDEE4B7A8, 0xF007FF28, 0x10E7F671);
    Word(b, 52, 0xFD9883DE, 0x79C425C5, 0xE8AE8B9C, 0x4DDD36BD, 0x425E3674);
    Go(H1, b, 52, 0x10E7F671, 0x0E5D77C4, 0x065F8486, 0x7510D04F, 0xABE1748A, 0x425E3674, 0x26C69395);
    Word(b, 53, 0x1ED8FFEB, 0x6353B49D, 0x4A933AD0, 0x35D36946, 0x059631C0);
    Go(H1, b, 53, 0x26C69395, 0x10E7F671, 0x0E5D77C4, 0x065F8486, 0x7510D04F, 0x059631C0, 0x4C608AC4);
    Word(b, 54, 0xF007FF28, 0x00994218, 0xCE8628B4, 0xE8AE8B9C, 0xAD6C3C31);
    Go(H1, b, 54, 0x4C608AC4, 0x26C69395, 0x10E7F671, 0x0E5D77C4, 0x065F8486, 0xAD6C3C31, 0x50C9104C);
    Word(b, 55, 0x425E3674, 0x8A950ED1, 0x415DBA9E, 0x4A933AD0, 0x860B71D7);
    Go(H1, b, 55, 0x50C9104C, 0x4C608AC4, 0x26C69395, 0x10E7F671, 0x0E5D77C4, 0x860B71D7, 0x7E1242F2);
    Word(b, 56, 0x059631C0, 0xAF5D0B99, 0x2792F049, 0xCE8628B4, 0x87BFC548);
    Go(H1, b, 56, 0x7E1242F2, 0x50C9104C, 0x4C608AC4, 0x26C69395, 0x10E7F671, 0x87BFC548, 0x6EF6FEF4);
    Word(b, 57, 0xAD6C3C31, 0xFD9883DE, 0x8E9B79E7, 0x415DBA9E, 0x3E64F92D);
    Go(H1, b, 57, 0x6EF6FEF4, 0x7E1242F2, 0x50C9104C, 0x4C608AC4, 0x26C69395, 0x3E64F92D, 0x0C247C2E);
    Word(b, 58, 0x860B71D7, 0x1ED8FFEB, 0x79C425C5, 0x2792F049, 0x8D0AB761);
    Go(H1, b, 58, 0x0C247C2E, 0x6EF6FEF4, 0x7E1242F2, 0x50C9104C, 0x4C608AC4, 0x8D0AB761, 0xD284F163);
    Word(b, 59, 0x87BFC548, 0xF007FF28, 0x6353B49D, 0x8E9B79E7, 0x34E1EE35);
    Go(H1, b, 59, 0xD284F163, 0x0C247C2E, 0x6EF6FEF4, 0x7E1242F2, 0x50C9104C, 0x34E1EE35, 0x4872D85A);
  }

  lemma First70(b: Block)
    requires IsFirst(b)
    ensures W(b, 60) == 0x0ACF5108 && W(b, 61) == 0xC2B479DA && W(b, 62) == 0x6C93370A && W(b, 63) == 0xF7935BA1
    ensures W(b, 64) == 0xE91C91C1 && W(b, 65) == 0xBED165A2 && W(b, 66) == 0x4C3E4ABE && W(b, 67) == 0x50D96238
    ensures W(b, 68) == 0xB6587DDE && W(b, 69) == 0x1A2EE6E6
    ensures Trail(H1, b, 70, 0x07381B7E, 0x966E049A, 0xCF8658EC, 0x53131A40, 0xC3C2E45B)
  {
    hide W, Rounds, Trail;
    First60(b);
    First50(b);
    First40(b);
    Word(b, 60, 0x3E64F92D, 0x425E3674, 0x00994218, 0x79C425C5, 0x0ACF5108);
    Go(H1, b, 60, 0x4872D85A, 0xD284F163, 0x0C247C2E, 0x6EF6FEF4, 0x7E1242F2, 0x0ACF5108, 0xCD4200B8);
    Word(b, 61, 0x8D0AB761, 0x059631C0, 0x8A950ED1, 0x6353B49D, 0xC2B479DA);
    Go(H1, b, 61, 0xCD4200B8, 0x4872D85A, 0xD284F163, 0x0C247C2E, 0x6EF6FEF4, 0xC2B479DA, 0x90F00D8F);
    Word(b, 62, 0x34E1EE35, 0xAD6C3C31, 0xAF5D0B99, 0x00994218, 0x6C93370A);
    Go(H1, b, 62, 0x90F00D8F, 0xCD4200B8, 0x4872D85A, 0xD284F163, 0x0C247C2E, 0x6C93370A, 0x840054D3);
    Word(b, 63, 0x0ACF5108, 0x860B71D7, 0xFD9883DE, 0x8A950ED1, 0xF7935BA1);
    Go(H1, b, 63, 0x840054D3, 0x90F00D8F, 0xCD4200B8, 0x4872D85A, 0xD284F163, 0xF7935BA1, 0x685E2FF6);
    Word(b, 64, 0xC2B479DA, 0x87BFC548, 0x1ED8FFEB, 0xAF5D0B99, 0xE91C91C1);
    Go(H1, b, 64, 0x685E2FF6, 0x840054D3, 0x90F00D8F, 0xCD4200B8, 0x4872D85A, 0xE91C91C1, 0xA4CEE018);
    Word(b, 65, 0x6C93370A, 0x3E64F92D, 0xF007FF28, 0xFD9883DE, 0xBED165A2);
    Go(H1, b, 65, 0xA4CEE018, 0x685E2FF6, 0x840054D3, 0x90F00D8F, 0xCD4200B8, 0xBED165A2, 0xC3C2E45B);
    Word(b, 66, 0xF7935BA1, 0x8D0AB761, 0x425E3674, 0x1ED8FFEB, 0x4C3E4ABE);
    Go(H1, b, 66, 0xC3C2E45B, 0xA4CEE018, 0x685E2FF6, 0x840054D3, 0x90F00D8F, 0x4C3E4ABE, 0x53131A40);
    Word(b, 67, 0xE91C91C1, 0x34E1EE35, 0x059631C0, 0xF007FF28, 0x50D96238);
    Go(H1, b, 67, 0x53131A40, 0xC3C2E45B, 0xA4CEE018, 0x685E2FF6, 0x840054D3, 0x50D96238, 0xCF8658EC);
    Word(b, 68, 0xBED165A2, 0x0ACF5108, 0xAD6C3C31, 0x425E3674, 0xB6587DDE);
    Go(H1, b, 68, 0xCF8658EC, 0x53131A40, 0xC3C2E45B, 0xA4CEE018, 0x685E2FF6, 0xB6587DDE, 0x966E049A);
    Word(b, 69, 0x4C3E4ABE, 0xC2B479DA, 0x860B71D7, 0x059631C0, 0x1A2EE6E6);
    Go(H1, b, 69, 0x966E049A, 0xCF8658EC, 0x53131A40, 0xC3C2E45B, 0xA4CEE018, 0x1A2EE6E6, 0x07381B7E);
  }

  lemma First80(b: Block)
    requires IsFirst(b)
    ensures W(b, 70) == 0x2D335896 && W(b, 71) == 0xF3495D0B && W(b, 72) == 0xF30E0A1D && W(b, 73) == 0x32CE5459
    ensures W(b, 74) == 0x7165E3B8 && W(b, 75) == 0xAB05FF94 && W(b, 76) == 0xC5949F0B && W(b, 77) == 0xBCD84E4A
    ensures W(b, 78) == 0x07720392 && W(b, 79) == 0xFF3FF806
    ensures Trail(H1, b, 80, 0xF48A5426, 0x835995E1, 0x97047BEC, 0x29171009, 0x69CF0BCA)
  {
    hide W, Rounds, Trail;
    First70(b);
    First60(b);
    First50(b);
    Word(b, 70, 0x50D96238, 0x6C93370A, 0x87BFC548, 0xAD6C3C31, 0x2D335896);
    Go(H1, b, 70, 0x07381B7E, 0x966E049A, 0xCF8658EC, 0x53131A40, 0xC3C2E45B, 0x2D335896, 0x80D59773);
    Word(b, 71, 0xB6587DDE, 0xF7935BA1, 0x3E64F92D, 0x860B71D7, 0xF3495D0B);
    Go(H1, b, 71, 0x80D59773, 0x07381B7E, 0x966E049A, 0xCF8658EC, 0x53131A40, 0xF3495D0B, 0x7E65E044);
    Word(b, 72, 0x1A2EE6E6, 0xE91C91C1, 0x8D0AB761, 0x87BFC548, 0xF30E0A1D);
    Go(H1, b, 72, 0x7E65E044, 0x80D59773, 0x07381B7E, 0x966E049A, 0xCF8658EC, 0xF30E0A1D, 0x628E7B47);
    Word(b, 73, 0x2D335896, 0xBED165A2, 0x34E1EE35, 0x3E64F92D, 0x32CE5459);
    Go(H1, b, 73, 0x628E7B47, 0x7E65E044, 0x80D59773, 0x07381B7E, 0x966E049A, 0x32CE5459, 0x143A8388);
    Word(b, 74, 0xF3495D0B, 0x4C3E4ABE, 0x0ACF5108, 0x8D0AB761, 0x7165E3B8);
    Go(H1, b, 74, 0x143A8388, 0x628E7B47, 0x7E65E044, 0x80D59773, 0x07381B7E, 0x7165E3B8, 0xE20983F9);
    Word(b, 75, 0xF30E0A1D, 0x50D96238, 0xC2B479DA, 0x34E1EE35, 0xAB05FF94);
    Go(H1, b, 75, 0xE20983F9, 0x143A8388, 0x628E7B47, 0x7E65E044, 0x80D59773, 0xAB05FF94, 0x69CF0BCA);
    Word(b, 76, 0x32CE5459, 0xB6587DDE, 0x6C93370A, 0x0ACF5108, 0xC5949F0B);
    Go(H1, b, 76, 0x69CF0BCA, 0xE20983F9, 0x143A8388, 0x628E7B47, 0x7E65E044, 0xC5949F0B, 0x29171009);
    Word(b, 77, 0x7165E3B8, 0x1A2EE6E6, 0xF7935BA1, 0xC2B479DA, 0xBCD84E4A);
    Go(H1, b, 77, 0x29171009, 0x69CF0BCA, 0xE20983F9, 0x143A8388, 0x628E7B47, 0xBCD84E4A, 0x97047BEC);
    Word(b, 78, 0xAB05FF94, 0x2D335896, 0xE91C91C1, 0x6C93370A, 0x07720392);
    Go(H1, b, 78, 0x97047BEC, 0x29171009, 0x69CF0BCA, 0xE20983F9, 0x143A8388, 0x07720392, 0x835995E1);
    Word(b, 79, 0xC5949F0B, 0xF3495D0B, 0xBED165A2, 0xF7935BA1, 0xFF3FF806);
    Go(H1, b, 79, 0x835995E1, 0x97047BEC, 0x29171009, 0x69CF0BCA, 0xE20983F9, 0xFF3FF806, 0xF48A5426);
  }

  /** The words of the second block. */
  ghost predicate IsSecond(b: Block) {
    && W(b, 0) == 0x00000000 && W(b, 1) == 0x00000000 && W(b, 2) == 0x00000000 && W(b, 3) == 0x00000000
    && W(b, 4) == 0x00000000 && W(b, 5) == 0x00000000 && W(b, 6) == 0x00000000 && W(b, 7) == 0x00000000
    && W(b, 8) == 0x00000000 && W(b, 9) == 0x00000000 && W(b, 10) == 0x00000000 && W(b, 11) == 0x00000000
    && W(b, 12) == 0x00000000 && W(b, 13) == 0x00000000 && W(b, 14) == 0x00000000 && W(b, 15) == 0x000001E0
  }

  lemma Second10(b: Block)
    requires IsSecond(b)
    ensures Trail(H2, b, 10, 0x0B0814C3, 0x80946593, 0x25C018BE, 0xB3BBCAFE, 0x93A5EFBB)
  {
    hide W, Rounds, Trail;
    Start2(b);
    Go(H2, b, 0, 0x5BCF7727, 0x7327416A, 0xF9EFEFE6, 0x69E061E1, 0x791A9389, 0x00000000, 0x6D335CDE);
    Go(H2, b, 1, 0x6D335CDE, 0x5BCF7727, 0x7327416A, 0xF9EFEFE6, 0x69E061E1, 0x00000000, 0x186006B8);
    Go(H2, b, 2, 0x186006B8, 0x6D335CDE, 0x5BCF7727, 0x7327416A, 0xF9EFEFE6, 0x00000000, 0xF9FB295D);
    Go(H2, b, 3, 0xF9FB295D, 0x186006B8, 0x6D335CDE, 0x5BCF7727, 0x7327416A, 0x00000000, 0x15855523);
    Go(H2, b, 4, 0x15855523, 0xF9FB295D, 0x186006B8, 0x6D335CDE, 0x5BCF7727, 0x00000000, 0xE43DD2F2);
    Go(H2, b, 5, 0xE43DD2F2, 0x15855523, 0xF9FB295D, 0x186006B8, 0x6D335CDE, 0x00000000, 0x93A5EFBB);
    Go(H2, b, 6, 0x93A5EFBB, 0xE43DD2F2, 0x15855523, 0xF9FB295D, 0x186006B8, 0x00000000, 0xB3BBCAFE);
    Go(H2, b, 7, 0xB3BBCAFE, 0x93A5EFBB, 0xE43DD2F2, 0x15855523, 0xF9FB295D, 0x00000000, 0x25C018BE);
    Go(H2, b, 8, 0x25C018BE, 0xB3BBCAFE, 0x93A5EFBB, 0xE43DD2F2, 0x15855523, 0x00000000, 0x80946593);
    Go(H2, b, 9, 0x80946593, 0x25C018BE, 0xB3BBCAFE, 0x93A5EFBB, 0xE43DD2F2, 0x00000000, 0x0B0814C3);
  }

  lemma Second20(b: Block)
    requires IsSecond(b)
    ensures W(b, 16) == 0x00000000 && W(b, 17) == 0x00000000 && W(b, 18) == 0x000003C0 && W(b, 19) == 0x00000000
    ensures Trail(H2, b, 20, 0x2A008B51, 0x2F193A09, 0x72198F06, 0x3AD7440E, 0x986DF268)
  {
    hide W, Rounds, Trail;
    Second10(b);
    Go(H2, b, 10, 0x0B0814C3, 0x80946593, 0x25C018BE, 0xB3BBCAFE, 0x93A5EFBB, 0x00000000, 0x4CE92417);
    Go(H2, b, 11, 0x4CE92417, 0x0B0814C3, 0x80946593, 0x25C018BE, 0xB3BBCAFE, 0x00000000, 0x250601AD);
    Go(H2, b, 12, 0x250601AD, 0x4CE92417, 0x0B0814C3, 0x80946593, 0x25C018BE, 0x00000000, 0x6576D2DC);
    Go(H2, b, 13, 0x6576D2DC, 0x250601AD, 0x4CE92417, 0x0B0814C3, 0x80946593, 0x00000000, 0xAD43F39E);
    Go(H2, b, 14, 0xAD43F39E, 0x6576D2DC, 0x250601AD, 0x4CE92417, 0x0B0814C3, 0x00000000, 0x990B7BE7);
    Go(H2, b, 15, 0x990B7BE7, 0xAD43F39E, 0x6576D2DC, 0x250601AD, 0x4CE92417, 0x000001E0, 0x986DF268);
    Word(b, 16, 0x00000000, 0x00000000, 0x00000000, 0x00000000, 0x00000000);
    Go(H2, b, 16, 0x986DF268, 0x990B7BE7, 0xAD43F39E, 0x6576D2DC, 0x250601AD, 0x00000000, 0x3AD7440E);
    Word(b, 17, 0x00000000, 0x00000000, 0x00000000, 0x00000000, 0x00000000);
    Go(H2, b, 17, 0x3AD7440E, 0x986DF268, 0x990B7BE7, 0xAD43F39E, 0x6576D2DC, 0x00000000, 0x72198F06);
    Word(b, 18, 0x000001E0, 0x00000000, 0x00000000, 0x00000000, 0x000003C0);
    Go(H2, b, 18, 0x72198F06, 0x3AD7440E, 0x986DF268, 0x990B7BE7, 0xAD43F39E, 0x000003C0, 0x2F193A09);
    Word(b, 19, 0x00000000, 0x00000000, 0x00000000, 0x00000000, 0x00000000);
    Go(H2, b, 19, 0x2F193A09, 0x72198F06, 0x3AD7440E, 0x986DF268, 0x990B7BE7, 0x00000000, 0x2A008B51);
  }

  lemma Second30(b: Block)
    requires IsSecond(b)
    ensures W(b, 20) == 0x00000000 && W(b, 21) == 0x00000780 && W(b, 22) == 0x00000000 && W(b, 23) == 0x000003C0
    ensures W(b, 24) == 0x00000F00 && W(b, 25) == 0x00000000 && W(b, 26) == 0x00000000 && W(b, 27) == 0x00001E00
    ensures W(b, 28) == 0x00000000 && W(b, 29) == 0x00000CC0
    ensures Trail(H2, b, 30, 0x243EE057, 0xF57CB53E, 0x9327DF6F, 0xD2E726DA, 0x646C677D)
  {
    hide W, Rounds, Trail;
    Second20(b);
    Word(b, 20, 0x00000000, 0x00000000, 0x00000000, 0x00000000, 0x00000000);
    Go(H2, b, 20, 0x2A008B51, 0x2F193A09, 0x72198F06, 0x3AD7440E, 0x986DF268, 0x00000000, 0x12315B2B);
    Word(b, 21, 0x000003C0, 0x00000000, 0x00000000, 0x00000000, 0x00000780);
    Go(H2, b, 21, 0x12315B2B, 0x2A008B51, 0x2F193A09, 0x72198F06, 0x3AD7440E, 0x00000780, 0x40FBCF98);
    Word(b, 22, 0x00000000, 0x00000000, 0x00000000, 0x00000000, 0x00000000);
    Go(H2, b, 22, 0x40FBCF98, 0x12315B2B, 0x2A008B51, 0x2F193A09, 0x72198F06, 0x00000000, 0x3E5179E7);
    Word(b, 23, 0x00000000, 0x000001E0, 0x00000000, 0x00000000, 0x000003C0);
    Go(H2, b, 23, 0x3E5179E7, 0x40FBCF98, 0x12315B2B, 0x2A008B51, 0x2F193A09, 0x000003C0, 0x53C73650);
    Word(b, 24, 0x00000780, 0x00000000, 0x00000000, 0x00000000, 0x00000F00);
    Go(H2, b, 24, 0x53C73650, 0x3E5179E7, 0x40FBCF98, 0x12315B2B, 0x2A008B51, 0x00000F00, 0x1D24C44A);
    Word(b, 25, 0x00000000, 0x00000000, 0x00000000, 0x00000000, 0x00000000);
    Go(H2, b, 25, 0x1D24C44A, 0x53C73650, 0x3E5179E7, 0x40FBCF98, 0x12315B2B, 0x00000000, 0x646C677D);
    Word(b, 26, 0x000003C0, 0x000003C0, 0x00000000, 0x00000000, 0x00000000);
    Go(H2, b, 26, 0x646C677D, 0x1D24C44A, 0x53C73650, 0x3E5179E7, 0x40FBCF98, 0x00000000, 0xD2E726DA);
    Word(b, 27, 0x00000F00, 0x00000000, 0x00000000, 0x00000000, 0x00001E00);
    Go(H2, b, 27, 0xD2E726DA, 0x646C677D, 0x1D24C44A, 0x53C73650, 0x3E5179E7, 0x00001E00, 0x9327DF6F);
    Word(b, 28, 0x00000000, 0x00000000, 0x00000000, 0x00000000, 0x00000000);
    Go(H2, b, 28, 0x9327DF6F, 0xD2E726DA, 0x646C677D, 0x1D24C44A, 0x53C73650, 0x00000000, 0xF57CB53E);
    Word(b, 29, 0x00000000, 0x00000780, 0x000001E0, 0x00000000, 0x00000CC0);
    Go(H2, b, 29, 0xF57CB53E, 0x9327DF6F, 0xD2E726DA, 0x646C677D, 0x1D24C44A, 0x00000CC0, 0x243EE057);
  }

  lemma Second40(b: Block)
    requires IsSecond(b)
    ensures W(b, 30) == 0x00003C00 && W(b, 31) == 0x00000440 && W(b, 32) == 0x00000000 && W(b, 33) == 0x00007800
    ensures W(b, 34) == 0x00000F00 && W(b, 35) == 0x00003300 && W(b, 36) == 0x0000F000 && W(b, 37) == 0x00000F00
    ensures W(b, 38) == 0x00000000 && W(b, 39) == 0x0001EF00
    ensures Trail(H2, b, 40, 0x6F698F1A, 0xC6FF0CD3, 0x796ADEF3, 0x7DBCF2ED, 0x76922A14)
  {
    hide W, Rounds, Trail;
    Second30(b);
    Second20(b);
    Word(b, 30, 0x00001E00, 0x00000000, 0x00000000, 0x00000000, 0x00003C00);
    Go(H2, b, 30, 0x243EE057, 0xF57CB53E, 0x9327DF6F, 0xD2E726DA, 0x646C677D, 0x00003C00, 0xF4DDD7B7);
    Word(b, 31, 0x00000000, 0x000003C0, 0x00000000, 0x000001E0, 0x00000440);
    Go(H2, b, 31, 0xF4DDD7B7, 0x243EE057, 0xF57CB53E, 0x9327DF6F, 0xD2E726DA, 0x00000440, 0x3CF6EB58);
    Word(b, 32, 0x00000CC0, 0x00000F00, 0x000003C0, 0x00000000, 0x00000000);
    Go(H2, b, 32, 0x3CF6EB58, 0xF4DDD7B7, 0x243EE057, 0xF57CB53E, 0x9327DF6F, 0x00000000, 0x730E9170);
    Word(b, 33, 0x00003C00, 0x00000000, 0x00000000, 0x00000000, 0x00007800);
    Go(H2, b, 33, 0x730E9170, 0x3CF6EB58, 0xF4DDD7B7, 0x243EE057, 0xF57CB53E, 0x00007800, 0x96D9E59E);
    Word(b, 34, 0x00000440, 0x00000000, 0x00000000, 0x000003C0, 0x00000F00);
    Go(H2, b, 34, 0x96D9E59E, 0x730E9170, 0x3CF6EB58, 0xF4DDD7B7, 0x243EE057, 0x00000F00, 0x942AC4D3);
    Word(b, 35, 0x00000000, 0x00001E00, 0x00000780, 0x00000000, 0x00003300);
    Go(H2, b, 35, 0x942AC4D3, 0x96D9E59E, 0x730E9170, 0x3CF6EB58, 0xF4DDD7B7, 0x00003300, 0x76922A14);
    Word(b, 36, 0x00007800, 0x00000000, 0x00000000, 0x00000000, 0x0000F000);
    Go(H2, b, 36, 0x76922A14, 0x942AC4D3, 0x96D9E59E, 0x730E9170, 0x3CF6EB58, 0x0000F000, 0x7DBCF2ED);
    Word(b, 37, 0x00000F00, 0x00000CC0, 0x000003C0, 0x00000780, 0x00000F00);
    Go(H2, b, 37, 0x7DBCF2ED, 0x76922A14, 0x942AC4D3, 0x96D9E59E, 0x730E9170, 0x00000F00, 0x796ADEF3);
    Word(b, 38, 0x00003300, 0x00003C00, 0x00000F00, 0x00000000, 0x00000000);
    Go(H2, b, 38, 0x796ADEF3, 0x7DBCF2ED, 0x76922A14, 0x942AC4D3, 0x96D9E59E, 0x00000000, 0xC6FF0CD3);
    Word(b, 39, 0x0000F000, 0x00000440, 0x00000000, 0x000003C0, 0x0001EF00);
    Go(H2, b, 39, 0xC6FF0CD3, 0x796ADEF3, 0x7DBCF2ED, 0x76922A14, 0x942AC4D3, 0x0001EF00, 0x6F698F1A);
  }

  lemma Second50(b: Block)
    requires IsSecond(b)
    ensures W(b, 40) == 0x00000000 && W(b, 41) == 0x0000CC00 && W(b, 42) == 0x0003C000 && W(b, 43) == 0x00004380
    ensures W(b, 44) == 0x00000000 && W(b, 45) == 0x00078F00 && W(b, 46) == 0x0000FF00 && W(b, 47) == 0x00032680
    ensures W(b, 48) == 0x000F0000 && W(b, 49) == 0x0000F000
    ensures Trail(H2, b, 50, 0xA516F265, 0xA39F2041, 0xA3EF857E, 0xC8CDA3DA, 0x3BD9203B)
  {
    hide W, Rounds, Trail;
    Second40(b);
    Second30(b);
    Second20(b);
    Word(b, 40, 0x00000F00, 0x00000000, 0x00000000, 0x00000F00, 0x00000000);
    Go(H2, b, 40, 0x6F698F1A, 0xC6FF0CD3, 0x796ADEF3, 0x7DBCF2ED, 0x76922A14, 0x00000000, 0x78716769);
    Word(b, 41, 0x00000000, 0x00007800, 0x00001E00, 0x00000000, 0x0000CC00);
    Go(H2, b, 41, 0x78716769, 0x6F698F1A, 0xC6FF0CD3, 0x796ADEF3, 0x7DBCF2ED, 0x0000CC00, 0xFC343A02);
    Word(b, 42, 0x0001EF00, 0x00000F00, 0x00000000, 0x00000000, 0x0003C000);
    Go(H2, b, 42, 0xFC343A02, 0x78716769, 0x6F698F1A, 0xC6FF0CD3, 0x796ADEF3, 0x0003C000, 0xEDFCD85B);
    Word(b, 43, 0x00000000, 0x00003300, 0x00000CC0, 0x00001E00, 0x00004380);
    Go(H2, b, 43, 0xEDFCD85B, 0xFC343A02, 0x78716769, 0x6F698F1A, 0xC6FF0CD3, 0x00004380, 0x1E934ACF);
    Word(b, 44, 0x0000CC00, 0x0000F000, 0x00003C00, 0x00000000, 0x00000000);
    Go(H2, b, 44, 0x1E934ACF, 0xEDFCD85B, 0xFC343A02, 0x78716769, 0x6F698F1A, 0x00000000, 0xFC7BD35F);
    Word(b, 45, 0x0003C000, 0x00000F00, 0x00000440, 0x00000CC0, 0x00078F00);
    Go(H2, b, 45, 0xFC7BD35F, 0x1E934ACF, 0xEDFCD85B, 0xFC343A02, 0x78716769, 0x00078F00, 0x3BD9203B);
    Word(b, 46, 0x00004380, 0x00000000, 0x00000000, 0x00003C00, 0x0000FF00);
    Go(H2, b, 46, 0x3BD9203B, 0xFC7BD35F, 0x1E934ACF, 0xEDFCD85B, 0xFC343A02, 0x0000FF00, 0xC8CDA3DA);
    Word(b, 47, 0x00000000, 0x0001EF00, 0x00007800, 0x00000440, 0x00032680);
    Go(H2, b, 47, 0xC8CDA3DA, 0x3BD9203B, 0xFC7BD35F, 0x1E934ACF, 0xEDFCD85B, 0x00032680, 0xA3EF857E);
    Word(b, 48, 0x00078F00, 0x00000000, 0x00000F00, 0x00000000, 0x000F0000);
    Go(H2, b, 48, 0xA3EF857E, 0xC8CDA3DA, 0x3BD9203B, 0xFC7BD35F, 0x1E934ACF, 0x000F0000, 0xA39F2041);
    Word(b, 49, 0x0000FF00, 0x0000CC00, 0x00003300, 0x00007800, 0x0000F000);
    Go(H2, b, 49, 0xA39F2041, 0xA3EF857E, 0xC8CDA3DA, 0x3BD9203B, 0xFC7BD35F, 0x0000F000, 0xA516F265);
  }

  lemma Second60(b: Block)
    requires IsSecond(b)
    ensures W(b, 50) == 0x00003300 && W(b, 51) == 0x001EFF00 && W(b, 52) == 0x00000000 && W(b, 53) == 0x000CB800
    ensures W(b, 54) == 0x003C0000 && W(b, 55) == 0x00040B00 && W(b, 56) == 0x0000F000 && W(b, 57) == 0x0078FF00
    ensures W(b, 58) == 0x000FF000 && W(b, 59) == 0x00338700
    ensures Trail(H2, b, 60, 0x56119F19, 0x085EB2FE, 0x21289715, 0x05033FA3, 0xA1B68141)
  {
    hide W, Rounds, Trail;
    Second50(b);
    Second40(b);
    Second30(b);
    Word(b, 50, 0x00032680, 0x0003C000, 0x0000F000, 0x00000F00, 0x00003300);
    Go(H2, b, 50, 0xA516F265, 0xA39F2041, 0xA3EF857E, 0xC8CDA3DA, 0x3BD9203B, 0x00003300, 0xA3ABE4F5);
    Word(b, 51, 0x000F0000, 0x00004380, 0x00000F00, 0x00003300, 0x001EFF00);
    Go(H2, b, 51, 0xA3ABE4F5, 0xA516F265, 0xA39F2041, 0xA3EF857E, 0xC8CDA3DA, 0x001EFF00, 0x5FE2A3DB);
    Word(b, 52, 0x0000F000, 0x00000000, 0x00000000, 0x0000F000, 0x00000000);
    Go(H2, b, 52, 0x5FE2A3DB, 0xA3ABE4F5, 0xA516F265, 0xA39F2041, 0xA3EF857E, 0x00000000, 0x9E540637);
    Word(b, 53, 0x00003300, 0x00078F00, 0x0001EF00, 0x00000F00, 0x000CB800);
    Go(H2, b, 53, 0x9E540637, 0x5FE2A3DB, 0xA3ABE4F5, 0xA516F265, 0xA39F2041, 0x000CB800, 0x2C73BD78);
    Word(b, 54, 0x001EFF00, 0x0000FF00, 0x00000000, 0x00000000, 0x003C0000);
    Go(H2, b, 54, 0x2C73BD78, 0x9E540637, 0x5FE2A3DB, 0xA3ABE4F5, 0xA516F265, 0x003C0000, 0x660DD0B1);
    Word(b, 55, 0x00000000, 0x00032680, 0x0000CC00, 0x0001EF00, 0x00040B00);
    Go(H2, b, 55, 0x660DD0B1, 0x2C73BD78, 0x9E540637, 0x5FE2A3DB, 0xA3ABE4F5, 0x00040B00, 0xA1B68141);
    Word(b, 56, 0x000CB800, 0x000F0000, 0x0003C000, 0x00000000, 0x0000F000);
    Go(H2, b, 56, 0xA1B68141, 0x660DD0B1, 0x2C73BD78, 0x9E540637, 0x5FE2A3DB, 0x0000F000, 0x05033FA3);
    Word(b, 57, 0x003C0000, 0x0000F000, 0x00004380, 0x0000CC00, 0x0078FF00);
    Go(H2, b, 57, 0x05033FA3, 0xA1B68141, 0x660DD0B1, 0x2C73BD78, 0x9E540637, 0x0078FF00, 0x21289715);
    Word(b, 58, 0x00040B00, 0x00003300, 0x00000000, 0x0003C000, 0x000FF000);
    Go(H2, b, 58, 0x21289715, 0x05033FA3, 0xA1B68141, 0x660DD0B1, 0x2C73BD78, 0x000FF000, 0x085EB2FE);
    Word(b, 59, 0x0000F000, 0x001EFF00, 0x00078F00, 0x00004380, 0x00338700);
    Go(H2, b, 59, 0x085EB2FE, 0x21289715, 0x05033FA3, 0xA1B68141, 0x660DD0B1, 0x00338700, 0x56119F19);
  }

  lemma Second70(b: Block)
    requires IsSecond(b)
    ensures W(b, 60) == 0x00F00000 && W(b, 61) == 0x000FC300 && W(b, 62) == 0x0000F000 && W(b, 63) == 0x01EFBB00
    ensures W(b, 64) == 0x00000000 && W(b, 65) == 0x00CC0000 && W(b, 66) == 0x03C0F000 && W(b, 67) == 0x00438000
    ensures W(b, 68) == 0x00000000 && W(b, 69) == 0x078F0000
    ensures Trail(H2, b, 70, 0xBF3A7F95, 0x4E363DB9, 0x097A511C, 0xC97F1968, 0x17A22EF7)
  {
    hide W, Rounds, Trail;
    Second60(b);
    Second50(b);
    Second40(b);
    Word(b, 60, 0x0078FF00, 0x00000000, 0x0000FF00, 0x00000000, 0x00F00000);
    Go(H2, b, 60, 0x56119F19, 0x085EB2FE, 0x21289715, 0x05033FA3, 0xA1B68141, 0x00F00000, 0x77489E23);
    Word(b, 61, 0x000FF000, 0x000CB800, 0x00032680, 0x00078F00, 0x000FC300);
    Go(H2, b, 61, 0x77489E23, 0x56119F19, 0x085EB2FE, 0x21289715, 0x05033FA3, 0x000FC300, 0x11132F8F);
    Word(b, 62, 0x00338700, 0x003C0000, 0x000F0000, 0x0000FF00, 0x0000F000);
    Go(H2, b, 62, 0x11132F8F, 0x77489E23, 0x56119F19, 0x085EB2FE, 0x21289715, 0x0000F000, 0xD5EF1ED7);
    Word(b, 63, 0x00F00000, 0x00040B00, 0x0000F000, 0x00032680, 0x01EFBB00);
    Go(H2, b, 63, 0xD5EF1ED7, 0x11132F8F, 0x77489E23, 0x56119F19, 0x085EB2FE, 0x01EFBB00, 0xA5937450);
    Word(b, 64, 0x000FC300, 0x0000F000, 0x00003300, 0x000F0000, 0x00000000);
    Go(H2, b, 64, 0xA5937450, 0xD5EF1ED7, 0x11132F8F, 0x77489E23, 0x56119F19, 0x00000000, 0x9ECFA66C);
    Word(b, 65, 0x0000F000, 0x0078FF00, 0x001EFF00, 0x0000F000, 0x00CC0000);
    Go(H2, b, 65, 0x9ECFA66C, 0xA5937450, 0xD5EF1ED7, 0x11132F8F, 0x77489E23, 0x00CC0000, 0x17A22EF7);
    Word(b, 66, 0x01EFBB00, 0x000FF000, 0x00000000, 0x00003300, 0x03C0F000);
    Go(H2, b, 66, 0x17A22EF7, 0x9ECFA66C, 0xA5937450, 0xD5EF1ED7, 0x11132F8F, 0x03C0F000, 0xC97F1968);
    Word(b, 67, 0x00000000, 0x00338700, 0x000CB800, 0x001EFF00, 0x00438000);
    Go(H2, b, 67, 0xC97F1968, 0x17A22EF7, 0x9ECFA66C, 0xA5937450, 0xD5EF1ED7, 0x00438000, 0x097A511C);
    Word(b, 68, 0x00CC0000, 0x00F00000, 0x003C0000, 0x00000000, 0x00000000);
    Go(H2, b, 68, 0x097A511C, 0xC97F1968, 0x17A22EF7, 0x9ECFA66C, 0xA5937450, 0x00000000, 0x4E363DB9);
    Word(b, 69, 0x03C0F000, 0x000FC300, 0x00040B00, 0x000CB800, 0x078F0000);
    Go(H2, b, 69, 0x4E363DB9, 0x097A511C, 0xC97F1968, 0x17A22EF7, 0x9ECFA66C, 0x078F0000, 0xBF3A7F95);
  }

  lemma Second80(b: Block)
    requires IsSecond(b)
    ensures W(b, 70) == 0x00FF0000 && W(b, 71) == 0x03269E00 && W(b, 72) == 0x0F000000 && W(b, 73) == 0x00F0F000
    ensures W(b, 74) == 0x00333C00 && W(b, 75) == 0x1EFF8800 && W(b, 76) == 0x00000000 && W(b, 77) == 0x0CB88800
    ensures W(b, 78) == 0x3C00F000 && W(b, 79) == 0x040A4A00
    ensures Trail(H2, b, 80, 0x57AAD805, 0x4D3B0DAC, 0x49E92837, 0xD3010335, 0x51E08021)
  {
    hide W, Rounds, Trail;
    Second70(b);
    Second60(b);
    Second50(b);
    Word(b, 70, 0x00438000, 0x0000F000, 0x0000F000, 0x003C0000, 0x00FF0000);
    Go(H2, b, 70, 0xBF3A7F95, 0x4E363DB9, 0x097A511C, 0xC97F1968, 0x17A22EF7, 0x00FF0000, 0xF6D1AFEE);
    Word(b, 71, 0x00000000, 0x01EFBB00, 0x0078FF00, 0x00040B00, 0x03269E00);
    Go(H2, b, 71, 0xF6D1AFEE, 0xBF3A7F95, 0x4E363DB9, 0x097A511C, 0xC97F1968, 0x03269E00, 0xC90888CA);
    Word(b, 72, 0x078F0000, 0x00000000, 0x000FF000, 0x0000F000, 0x0F000000);
    Go(H2, b, 72, 0xC90888CA, 0xF6D1AFEE, 0xBF3A7F95, 0x4E363DB9, 0x097A511C, 0x0F000000, 0xC7652EDB);
    Word(b, 73, 0x00FF0000, 0x00CC0000, 0x00338700, 0x0078FF00, 0x00F0F000);
    Go(H2, b, 73, 0xC7652EDB, 0xC90888CA, 0xF6D1AFEE, 0xBF3A7F95, 0x4E363DB9, 0x00F0F000, 0x26F99990);
    Word(b, 74, 0x03269E00, 0x03C0F000, 0x00F00000, 0x000FF000, 0x00333C00);
    Go(H2, b, 74, 0x26F99990, 0xC7652EDB, 0xC90888CA, 0xF6D1AFEE, 0xBF3A7F95, 0x00333C00, 0xE22B36D1);
    Word(b, 75, 0x0F000000, 0x00438000, 0x000FC300, 0x00338700, 0x1EFF8800);
    Go(H2, b, 75, 0xE22B36D1, 0x26F99990, 0xC7652EDB, 0xC90888CA, 0xF6D1AFEE, 0x1EFF8800, 0x51E08021);
    Word(b, 76, 0x00F0F000, 0x00000000, 0x0000F000, 0x00F00000, 0x00000000);
    Go(H2, b, 76, 0x51E08021, 0xE22B36D1, 0x26F99990, 0xC7652EDB, 0xC90888CA, 0x00000000, 0xD3010335);
    Word(b, 77, 0x00333C00, 0x078F0000, 0x01EFBB00, 0x000FC300, 0x0CB88800);
    Go(H2, b, 77, 0xD3010335, 0x51E08021, 0xE22B36D1, 0x26F99990, 0xC7652EDB, 0x0CB88800, 0x49E92837);
    Word(b, 78, 0x1EFF8800, 0x00FF0000, 0x00000000, 0x0000F000, 0x3C00F000);
    Go(H2, b, 78, 0x49E92837, 0xD3010335, 0x51E08021, 0xE22B36D1, 0x26F99990, 0x3C00F000, 0x4D3B0DAC);
    Word(b, 79, 0x00000000, 0x03269E00, 0x00CC0000, 0x01EFBB00, 0x040A4A00);
    Go(H2, b, 79, 0x4D3B0DAC, 0x49E92837, 0xD3010335, 0x51E08021, 0xE22B36D1, 0x040A4A00, 0x57AAD805);
  }

  // ---------- from the key to its words ----------

  const KEY: string := "dGhlIHNhbXBsZSBub25jZQ=="

  /** The characters of key and GUID, 16 to a row; the last row ends with the padding. */
  const ROW0: seq<byte> := [
    0x64, 0x47, 0x68, 0x6C, 0x49, 0x48, 0x4E, 0x68,
    0x62, 0x58, 0x42, 0x73, 0x5A, 0x53, 0x42, 0x75]
  const ROW1: seq<byte> := [
    0x62, 0x32, 0x35, 0x6A, 0x5A, 0x51, 0x3D, 0x3D,
    0x32, 0x35, 0x38, 0x45, 0x41, 0x46, 0x41, 0x35]
  const ROW2: seq<byte> := [
    0x2D, 0x45, 0x39, 0x31, 0x34, 0x2D, 0x34, 0x37,
    0x44, 0x41, 0x2D, 0x39, 0x35, 0x43, 0x41, 0x2D]
  const ROW3: seq<byte> := [
    0x43, 0x35, 0x41, 0x42, 0x30, 0x44, 0x43, 0x38,
    0x35, 0x42, 0x31, 0x31]
  const PADDED: seq<byte> := ROW3 + [0x80, 0x00, 0x00, 0x00]

  lemma KeyAndGuid()
    ensures KEY == "dGhlIHNhbXBsZSBu" + "b25jZQ=="
    ensures WS.GUID == "258EAFA5" + ("-E914-47DA-95CA-" + "C5AB0DC85B11")
  {
  }

  lemma FirstRow()
    ensures WS.AsBytes("dGhlIHNhbXBsZSBu") == ROW0
  {
  }

  lemma SecondRow()
    ensures WS.AsBytes("b25jZQ==" + "258EAFA5") == ROW1
  {
    assert "b25jZQ==" + "258EAFA5" == "b25jZQ==258EAFA5";
  }

  lemma ThirdRow()
    ensures WS.AsBytes("-E914-47DA-95CA-") == ROW2
  {
  }

  lemma FourthRow()
    ensures WS.AsBytes("C5AB0DC85B11") == ROW3
  {
  }

  lemma Concatenated(s: string, t: string)
    ensures WS.AsBytes(s + t) == WS.AsBytes(s) + WS.AsBytes(t)
  {
  }

  lemma Four(a: string, b: string, c: string, d: string, e: string)
    ensures (a + b) + (c + (d + e)) == a + ((b + c) + (d + e))
  {
  }

  lemma Message()
    ensures WS.AsBytes(KEY + WS.GUID) == ROW0 + (ROW1 + (ROW2 + ROW3))
  {
    hide WS.AsBytes;
    KeyAndGuid();
    FirstRow();
    SecondRow();
    ThirdRow();
    FourthRow();
    Four("dGhlIHNhbXBsZSBu", "b25jZQ==", "258EAFA5", "-E914-47DA-95CA-", "C5AB0DC85B11");
    Concatenated("-E914-47DA-95CA-", "C5AB0DC85B11");
    Concatenated("b25jZQ==" + "258EAFA5", "-E914-47DA-95CA-" + "C5AB0DC85B11");
    Concatenated("dGhlIHNhbXBsZSBu", ("b25jZQ==" + "258EAFA5") + ("-E914-47DA-95CA-" + "C5AB0DC85B11"));
  }

  lemma Padding()
    ensures Trailer(60) == [0x80] + ZeroBytes(59) + ZeroBytes(6) + [0x01, 0xE0]
  {
    assert BigEndian(480, 8) == ZeroBytes(6) + [0x01, 0xE0];
  }

  /** A block's words, a row of 16 bytes at a time. */
  lemma RowWords(b: Block, k: nat, r: seq<byte>)
    requires k < 4 && r == b[16 * k..16 * k + 16]
    ensures W(b, 4 * k) == WordOf(r[0], r[1], r[2], r[3]) && W(b, 4 * k + 1) == WordOf(r[4], r[5], r[6], r[7])
    ensures W(b, 4 * k + 2) == WordOf(r[8], r[9], r[10], r[11])
    ensures W(b, 4 * k + 3) == WordOf(r[12], r[13], r[14], r[15])
  {
    hide WordOf;
  }

  lemma Row0(b: Block)
    requires b[0..16] == ROW0
    ensures W(b, 0) == 0x6447686C && W(b, 1) == 0x49484E68
    ensures W(b, 2) == 0x62584273 && W(b, 3) == 0x5A534275
  {
    hide W, WordOf;
    RowWords(b, 0, ROW0);
    Words0();
  }

  lemma Words0()
    ensures WordOf(0x64, 0x47, 0x68, 0x6C) == 0x6447686C && WordOf(0x49, 0x48, 0x4E, 0x68) == 0x49484E68
    ensures WordOf(0x62, 0x58, 0x42, 0x73) == 0x62584273 && WordOf(0x5A, 0x53, 0x42, 0x75) == 0x5A534275
  {
  }

  lemma Row1(b: Block)
    requires b[16..32] == ROW1
    ensures W(b, 4) == 0x6232356A && W(b, 5) == 0x5A513D3D
    ensures W(b, 6) == 0x32353845 && W(b, 7) == 0x41464135
  {
    hide W, WordOf;
    RowWords(b, 1, ROW1);
    Words1();
  }

  lemma Words1()
    ensures WordOf(0x62, 0x32, 0x35, 0x6A) == 0x6232356A && WordOf(0x5A, 0x51, 0x3D, 0x3D) == 0x5A513D3D
    ensures WordOf(0x32, 0x35, 0x38, 0x45) == 0x32353845 && WordOf(0x41, 0x46, 0x41, 0x35) == 0x41464135
  {
  }

  lemma Row2(b: Block)
    requires b[32..48] == ROW2
    ensures W(b, 8) == 0x2D453931 && W(b, 9) == 0x342D3437
    ensures W(b, 10) == 0x44412D39 && W(b, 11) == 0x3543412D
  {
    hide W, WordOf;
    RowWords(b, 2, ROW2);
    Words2();
  }

  lemma Words2()
    ensures WordOf(0x2D, 0x45, 0x39, 0x31) == 0x2D453931 && WordOf(0x34, 0x2D, 0x34, 0x37) == 0x342D3437
    ensures WordOf(0x44, 0x41, 0x2D, 0x39) == 0x44412D39 && WordOf(0x35, 0x43, 0x41, 0x2D) == 0x3543412D
  {
  }

  lemma Row3(b: Block)
    requires b[48..64] == PADDED
    ensures W(b, 12) == 0x43354142 && W(b, 13) == 0x30444338
    ensures W(b, 14) == 0x35423131 && W(b, 15) == 0x80000000
  {
    hide W, WordOf;
    RowWords(b, 3, PADDED);
    Words3();
  }

  lemma Words3()
    ensures WordOf(0x43, 0x35, 0x41, 0x42) == 0x43354142 && WordOf(0x30, 0x44, 0x43, 0x38) == 0x30444338
    ensures WordOf(0x35, 0x42, 0x31, 0x31) == 0x35423131 && WordOf(0x80, 0x00, 0x00, 0x00) == 0x80000000
  {
  }

  lemma FourRows(b: seq<byte>, r0: seq<byte>, r1: seq<byte>, r2: seq<byte>, r3: seq<byte>)
    requires b == r0 + (r1 + (r2 + r3)) && |r0| == |r1| == |r2| == |r3| == 16
    ensures |b| == 64 && b[0..16] == r0 && b[16..32] == r1 && b[32..48] == r2 && b[48..64] == r3
  {
  }

  lemma FirstWords(b: Block)
    requires b == ROW0 + (ROW1 + (ROW2 + PADDED))
    ensures IsFirst(b)
  {
    hide W;
    FourRows(b, ROW0, ROW1, ROW2, PADDED);
    Row0(b);
    Row1(b);
    Row2(b);
    Row3(b);
  }

  lemma SecondWords(b: Block)
    requires b == ZeroBytes(62) + [0x01, 0xE0]
    ensures IsSecond(b)
  {
    hide W, WordOf;
    var zeros: seq<byte> := [0, 0, 0, 0, 0, 0, 0, 0, 0, 0, 0, 0, 0, 0, 0, 0];
    var last: seq<byte> := [0, 0, 0, 0, 0, 0, 0, 0, 0, 0, 0, 0, 0, 0, 0x01, 0xE0];
    assert b[0..16] == zeros && b[16..32] == zeros && b[32..48] == zeros && b[48..64] == last;
    RowWords(b, 0, zeros);
    RowWords(b, 1, zeros);
    RowWords(b, 2, zeros);
    RowWords(b, 3, last);
    LastWords();
  }

  lemma LastWords()
    ensures WordOf(0, 0, 0, 0) == 0 && WordOf(0, 0, 0x01, 0xE0) == 0x1E0
  {
  }

  // ---------- the answer ----------

  lemma FirstBlock(b: Block)
    requires IsFirst(b)
    ensures Compress(H1, b) == H2
  {
    hide W, Rounds, IsFirst;
    First80(b);
  }

  lemma SecondBlock(b: Block)
    requires IsSecond(b)
    ensures Compress(H2, b) == Regs(0xB37A4F2C, 0xC0624F16, 0x90F64606, 0xCF385945, 0xB2BEC4EA)
  {
    hide W, Rounds, IsSecond;
    Second80(b);
  }

  const DIGEST: seq<byte> := [
    0xB3, 0x7A, 0x4F, 0x2C, 0xC0, 0x62, 0x4F, 0x16, 0x90, 0xF6, 0x46, 0x06,
    0xCF, 0x38, 0x59, 0x45, 0xB2, 0xBE, 0xC4, 0xEA]

  lemma LastBytes()
    ensures Digest(Regs(0xB37A4F2C, 0xC0624F16, 0x90F64606, 0xCF385945, 0xB2BEC4EA)) == DIGEST
  {
  }

  lemma Regrouped(r0: seq<byte>, r1: seq<byte>, r2: seq<byte>, r3: seq<byte>)
    ensures (r0 + (r1 + (r2 + r3))) + ([0x80] + ZeroBytes(59) + ZeroBytes(6) + [0x01, 0xE0])
            == (r0 + (r1 + (r2 + (r3 + [0x80, 0x00, 0x00, 0x00])))) + (ZeroBytes(62) + [0x01, 0xE0])
  {
  }

  /** Both padding and folding: the message of 60 bytes takes two blocks. */
  lemma TwoBlocks(m: seq<byte>)
    requires m == ROW0 + (ROW1 + (ROW2 + ROW3))
    ensures Sha1.Sha1(m) == DIGEST
  {
    hide Process, Compress, Digest, IsFirst, IsSecond, Sha1.Sha1, Trailer;
    var b1: Block := ROW0 + (ROW1 + (ROW2 + PADDED));
    var b2: Block := ZeroBytes(62) + [0x01, 0xE0];
    hide ZeroBytes;
    Unfolded(m);
    Padding();
    Regrouped(ROW0, ROW1, ROW2, ROW3);
    FirstWords(b1);
    SecondWords(b2);
    FirstBlock(b1);
    SecondBlock(b2);
    FoldTwo(H1, b1, b2);
    LastBytes();
  }

  lemma Unfolded(m: seq<byte>)
    requires m == ROW0 + (ROW1 + (ROW2 + ROW3))
    ensures |m| == 60 && Sha1.Sha1(m) == Digest(Process(H1, m + Trailer(60)))
  {
  }

  lemma FoldTwo(h: Regs, b1: Block, b2: Block)
    ensures Process(h, b1 + b2) == Compress(Compress(h, b1), b2)
  {
    hide Compress;
    ProcessOne(h, [], b1);
    ProcessOne(h, b1, b2);
    assert [] + b1 == b1;
  }

  lemma Group(d: seq<byte>, g: seq<byte>, rest: seq<byte>)
    requires |g| == 3 && d == g + rest && rest != []
    ensures WS.Base64(d) == WS.Quad(g) + WS.Base64(rest)
  {
    assert d[..3] == g && d[3..] == rest;
  }

  lemma FirstQuads()
    ensures WS.Quad([0xB3, 0x7A, 0x4F]) == "s3pP"
    ensures WS.Quad([0x2C, 0xC0, 0x62]) == "LMBi"
    ensures WS.Quad([0x4F, 0x16, 0x90]) == "TxaQ"
    ensures WS.Quad([0xF6, 0x46, 0x06]) == "9kYG"
  {
    hide WS.Symbol;
    WS.Alphabet();
    assert WS.Pack(0xB3, 0x7A, 0x4F) == 0xB37A4F;
    assert WS.Pack(0x2C, 0xC0, 0x62) == 0x2CC062;
    assert WS.Pack(0x4F, 0x16, 0x90) == 0x4F1690;
    assert WS.Pack(0xF6, 0x46, 0x06) == 0xF64606;
  }

  lemma LastQuads()
    ensures WS.Quad([0xCF, 0x38, 0x59]) == "zzhZ"
    ensures WS.Quad([0x45, 0xB2, 0xBE]) == "RbK+"
    ensures WS.Quad([0xC4, 0xEA]) == "xOo="
  {
    hide WS.Symbol;
    WS.Alphabet();
    assert WS.Pack(0xCF, 0x38, 0x59) == 0xCF3859;
    assert WS.Pack(0x45, 0xB2, 0xBE) == 0x45B2BE;
    assert WS.Pack(0xC4, 0xEA, 0x00) == 0xC4EA00;
  }

  lemma LastGroups()
    ensures WS.Base64([0xCF, 0x38, 0x59, 0x45, 0xB2, 0xBE, 0xC4, 0xEA]) == "zzhZRbK+xOo="
  {
    hide WS.Quad, WS.Base64;
    LastQuads();
    Group([0xCF, 0x38, 0x59, 0x45, 0xB2, 0xBE, 0xC4, 0xEA], [0xCF, 0x38, 0x59], [0x45, 0xB2, 0xBE, 0xC4, 0xEA]);
    Group([0x45, 0xB2, 0xBE, 0xC4, 0xEA], [0x45, 0xB2, 0xBE], [0xC4, 0xEA]);
    Last([0xC4, 0xEA]);
  }

  lemma MoreGroups()
    ensures WS.Base64([0x4F, 0x16, 0x90, 0xF6, 0x46, 0x06, 0xCF, 0x38, 0x59, 0x45, 0xB2, 0xBE, 0xC4, 0xEA])
            == "TxaQ9kYG" + "zzhZRbK+xOo="
  {
    hide WS.Quad, WS.Base64;
    FirstQuads();
    LastGroups();
    var d3: seq<byte> := [0xF6, 0x46, 0x06, 0xCF, 0x38, 0x59, 0x45, 0xB2, 0xBE, 0xC4, 0xEA];
    Group([0x4F, 0x16, 0x90, 0xF6, 0x46, 0x06, 0xCF, 0x38, 0x59, 0x45, 0xB2, 0xBE, 0xC4, 0xEA],
          [0x4F, 0x16, 0x90], d3);
    Group(d3, [0xF6, 0x46, 0x06], [0xCF, 0x38, 0x59, 0x45, 0xB2, 0xBE, 0xC4, 0xEA]);
  }

  lemma Text()
    ensures WS.Base64(DIGEST) == "s3pPLMBi" + ("TxaQ9kYG" + "zzhZRbK+xOo=")
  {
    hide WS.Quad, WS.Base64;
    FirstQuads();
    MoreGroups();
    var d1: seq<byte> := [0x2C, 0xC0, 0x62, 0x4F, 0x16, 0x90, 0xF6, 0x46, 0x06,
                          0xCF, 0x38, 0x59, 0x45, 0xB2, 0xBE, 0xC4, 0xEA];
    Group(DIGEST, [0xB3, 0x7A, 0x4F], d1);
    Group(d1, [0x2C, 0xC0, 0x62], [0x4F, 0x16, 0x90, 0xF6, 0x46, 0x06, 0xCF, 0x38, 0x59, 0x45, 0xB2, 0xBE, 0xC4, 0xEA]);
  }

  lemma Last(g: seq<byte>)
    requires 1 <= |g| <= 3
    ensures WS.Base64(g) == WS.Quad(g)
  {
  }

  lemma WholeText()
    ensures "s3pPLMBi" + ("TxaQ9kYG" + "zzhZRbK+xOo=") == "s3pPLMBiTxaQ9kYGzzhZRbK+xOo="
  {
    assert "TxaQ9kYG" + "zzhZRbK+xOo=" == "TxaQ9kYGzzhZRbK+xOo=";
  }

  lemma AcceptedKey()
    ensures WS.Accepted(KEY) == WS.Base64(DIGEST)
  {
    Message();
    TwoBlocks(WS.AsBytes(KEY + WS.GUID));
    hide WS.AsBytes, Sha1.Sha1, WS.Base64;
  }

  /** Main result: the key of the RFC is accepted with the text of the RFC. */
  lemma HandshakeExample()
    ensures WS.Accepted("dGhlIHNhbXBsZSBub25jZQ==") == "s3pPLMBiTxaQ9kYGzzhZRbK+xOo="
  {
    hide WS.Accepted, WS.Base64;
    AcceptedKey();
    Text();
    WholeText();
  }
}
