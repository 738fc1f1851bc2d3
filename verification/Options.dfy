/** The options of a SYN, from `tcp_write_syn_options` through `tcp_parse_opts`. */
module Options {
  import opened Words
  import opened TcpTypes
  import opened TcpOutput
  import opened TcpInput

  lemma TakeMss(m: seq<byte>, left: u8, r: ParsedOptions, mss: u16)
    requires |m| >= 4 && m[..4] == [OPT_MSS, 4, mss / 0x100, mss % 0x100] && 4 <= left < 20
    ensures ParseFrom(m, 0, left, r) == ParseFrom(m, 4, left - 4, if 536 < mss <= 1460 then r.(mss := Some(mss)) else r)
  {
    assert m[0] == m[..4][0] && m[2] == m[..4][2] && m[3] == m[..4][3];
  }

  lemma TakeSackOk(m: seq<byte>, r: ParsedOptions)
    requires |m| >= 8 && m[4..8] == [OPT_NOOP, OPT_NOOP, OPT_SACK_OK, 2]
    ensures ParseFrom(m, 4, 4, r) == r.(sack := true)
  {
    assert m[4] == m[4..8][0] && m[5] == m[4..8][1] && m[6] == m[4..8][2];
    assert ParseFrom(m, 4, 4, r) == ParseFrom(m, 5, 3, r) == ParseFrom(m, 6, 2, r);
    assert ParseFrom(m, 6, 2, r) == ParseFrom(m, 6, 1, r.(sack := true)) == r.(sack := true);
  }

  /** A SYN+ACK that carries the options of this stack tells its peer the same MSS, if that lies between 537
      and 1460, and SACK is used exactly when both ends allow it. */
  lemma SynOptionsParseBack(s: Sock, p: Packet, mss: u16, sackOk: bool)
    requires p.options == SynOptions(mss, sackOk)
    ensures var t := ParseOpts(s, p);
      && t.smss == (if 536 < mss <= 1460 then mss else s.smss)
      && t.sack.ok == (s.sack.ok && sackOk) && (t.sack.ok ==> t.sack.allowed == 4)
      && t == s.(smss := t.smss, sack := s.sack.(ok := t.sack.ok, allowed := t.sack.allowed))
  {
    var m, left := p.options + p.payload, |p.options|;
    var r0 := ParsedOptions(None, false);
    var r1 := if 536 < mss <= 1460 then r0.(mss := Some(mss)) else r0;
    assert m[..4] == p.options[..4] == [OPT_MSS, 4, mss / 0x100, mss % 0x100];
    TakeMss(m, left, r0, mss);
    if sackOk {
      assert m[4..8] == p.options[4..8] == [OPT_NOOP, OPT_NOOP, OPT_SACK_OK, 2];
      TakeSackOk(m, r1);
    }
    assert ParseFrom(m, 0, left, r0) == if sackOk then r1.(sack := true) else r1;
    hide ParseFrom, SynOptions;
  }

  /** The MSS that `tcp_connect` announces survives the trip. */
  lemma AnnouncedMssIsUsed(s: Sock, p: Packet, sackOk: bool)
    requires p.options == SynOptions(RMSS, sackOk)
    ensures ParseOpts(s, p).smss == RMSS
  {
    SynOptionsParseBack(s, p, RMSS, sackOk);
  }

  lemma {:induction false} ParseStuck(m: seq<byte>, i: nat, left: u8, r: ParsedOptions)
    requires ByteAt(m, i) !in {OPT_MSS, OPT_NOOP, OPT_SACK_OK}
    ensures ParseFrom(m, i, left, r) == r
    decreases left
  {
    if 0 < left < 20 {
      ParseStuck(m, i, left - 1, r);
    }
  }

  /** Behind filler the next option is an MSS option. */
  predicate NextIsMss(o: seq<byte>) {
    o != [] && (o[0] == OPT_MSS || (o[0] == OPT_NOOP && NextIsMss(o[1..])))
  }

  /** The loop steps over filler and stays at the first option that is not an MSS: it learns no MSS from the
      remaining `left` bytes unless that comes next. */
  lemma {:induction false} ParseKeepsMss(m: seq<byte>, i: nat, left: u8, r: ParsedOptions)
    requires i + left <= |m| && !NextIsMss(m[i..i + left])
    ensures ParseFrom(m, i, left, r).mss == r.mss
    decreases left
  {
    if 0 < left < 20 {
      assert m[i] == m[i..i + left][0];
      if m[i] == OPT_NOOP {
        assert m[i + 1..i + 1 + (left - 1)] == m[i..i + left][1..];
        ParseKeepsMss(m, i + 1, left - 1, r);
      } else {
        ParseStays(m, i, left, r);
      }
    }
  }

  lemma {:induction false} ParseStays(m: seq<byte>, i: nat, left: u8, r: ParsedOptions)
    requires ByteAt(m, i) !in {OPT_MSS, OPT_NOOP}
    ensures ParseFrom(m, i, left, r).mss == r.mss
    decreases left
  {
    if 0 < left < 20 {
      ParseStays(m, i, left - 1, if ByteAt(m, i) == OPT_SACK_OK then r.(sack := true) else r);
    }
  }

  /** An MSS option that comes first, and is not followed by another one, is understood exactly when the options
      take fewer than 20 bytes: longer ones are skipped altogether. */
  lemma MssIsUnderstood(s: Sock, p: Packet, mss: u16, rest: seq<byte>)
    requires 536 < mss <= 1460 && s.smss != mss && |p.options| <= 40
    requires p.options == [OPT_MSS, 4, mss / 0x100, mss % 0x100] + rest && !NextIsMss(rest)
    ensures ParseOpts(s, p).smss == mss <==> |p.options| < 20
  {
    var m, left := p.options + p.payload, |p.options|;
    if left < 20 {
      assert m[..4] == [OPT_MSS, 4, mss / 0x100, mss % 0x100];
      TakeMss(m, left, ParsedOptions(None, false), mss);
      assert m[4..4 + (left - 4)] == rest;
      ParseKeepsMss(m, 4, left - 4, ParsedOptions(Some(mss), false));
    }
  }
}
