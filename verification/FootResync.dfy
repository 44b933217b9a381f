/** Which bytes in front of a foot-pressure frame cost it. */
module FootResync {
  import opened Bytes
  import opened FootPressure
  import opened FootErrors

  /** The byte-by-byte parse of s stops at position p. */
  predicate Visits(s: seq<byte>, p: nat) {
    p == 0 || (|s| >= FRAME_LEN && Advance(s) <= p && Visits(s[Advance(s)..], p - Advance(s)))
  }

  /** A complete frame that passes every check stands at the front of s. */
  predicate IsFrame(s: seq<byte>) {
    && |s| >= FRAME_LEN && s[0] == FRAME_HEAD && s[1] == FRAME_SRC && s[FRAME_LEN - 1] == FRAME_TAIL
    && s[CS_OFFSET] == Checksum(s[1..CS_OFFSET])
  }

  function Later(ps: seq<nat>, n: nat): (qs: seq<nat>)
    ensures |qs| == |ps| && forall i :: 0 <= i < |ps| ==> qs[i] == ps[i] + n
  {
    seq(|ps|, i requires 0 <= i < |ps| => ps[i] + n)
  }

  /** The positions from which the readings of `Parse` are taken, in order. */
  function TakenFrom(s: seq<byte>): seq<nat> {
    if |s| < FRAME_LEN then []
    else if IsFrame(s) then [0] + Later(TakenFrom(s[FRAME_LEN..]), FRAME_LEN)
    else Later(TakenFrom(s[Advance(s)..]), Advance(s))
  }

  lemma OneStep(s: seq<byte>)
    requires |s| >= FRAME_LEN
    ensures var tail := s[Advance(s)..];
            && Parse(s) == (if IsFrame(s) then [Extract(s)] + Parse(tail) else Parse(tail))
            && TakenFrom(s) == (if IsFrame(s) then [0] else []) + Later(TakenFrom(tail), Advance(s))
  {
    hide Checksum, Extract;
    ParseAdvances(s);
    var later := Later(TakenFrom(s[Advance(s)..]), Advance(s));
    assert [] + later == later;
  }

  /** Reading i of the parse is what the bytes at position i of `TakenFrom` say. */
  lemma {:induction false} ReadingsAreTakenFrom(s: seq<byte>)
    ensures |TakenFrom(s)| == |Parse(s)|
    ensures forall i :: 0 <= i < |Parse(s)| ==>
              TakenFrom(s)[i] + FRAME_LEN <= |s| && Parse(s)[i] == Extract(s[TakenFrom(s)[i]..])
  {
    if |s| >= FRAME_LEN {
      var n := Advance(s);
      OneStep(s);
      ReadingsAreTakenFrom(s[n..]);
      LaterReadings(s, n, TakenFrom(s[n..]), Parse(s[n..]));
      FrontReading(s, Later(TakenFrom(s[n..]), n), Parse(s[n..]));
      hide Parse, TakenFrom, IsFrame, Extract, Advance, Later;
    }
  }

  lemma FrontReading(s: seq<byte>, ps: seq<nat>, rs: seq<Reading>)
    requires |s| >= FRAME_LEN && |ps| == |rs|
    requires forall i :: 0 <= i < |rs| ==> ps[i] + FRAME_LEN <= |s| && rs[i] == Extract(s[ps[i]..])
    ensures forall i :: 0 <= i < |[Extract(s)] + rs| ==>
              ([0] + ps)[i] + FRAME_LEN <= |s| && ([Extract(s)] + rs)[i] == Extract(s[([0] + ps)[i]..])
    ensures [] + ps == ps
  {
    hide Extract;
    assert s[0..] == s;
  }

  lemma LaterReadings(s: seq<byte>, n: nat, ps: seq<nat>, rs: seq<Reading>)
    requires n <= |s| && |ps| == |rs|
    requires forall i :: 0 <= i < |rs| ==> ps[i] + FRAME_LEN <= |s| - n && rs[i] == Extract(s[n..][ps[i]..])
    ensures forall i :: 0 <= i < |rs| ==>
              Later(ps, n)[i] + FRAME_LEN <= |s| && rs[i] == Extract(s[Later(ps, n)[i]..])
  {
    hide Extract;
    forall i | 0 <= i < |rs| ensures s[n..][ps[i]..] == s[Later(ps, n)[i]..] {
    }
  }

  lemma LaterHas(ps: seq<nat>, n: nat, p: nat)
    ensures p in Later(ps, n) <==> p >= n && p - n in ps
  {
    var qs := Later(ps, n);
    if p in qs {
      var i :| 0 <= i < |qs| && qs[i] == p;
      assert ps[i] == p - n;
    }
    if p >= n && p - n in ps {
      var i :| 0 <= i < |ps| && ps[i] == p - n;
      assert qs[i] == p;
    }
  }

  lemma FrontOrLater(first: bool, later: seq<nat>, p: nat)
    ensures p in (if first then [0] else []) + later <==> (first && p == 0) || p in later
  {
  }

  lemma VisitsStep(s: seq<byte>, p: nat)
    requires |s| >= FRAME_LEN
    ensures Visits(s, p) <==> p == 0 || (Advance(s) <= p && Visits(s[Advance(s)..], p - Advance(s)))
  {
  }

  lemma FrameAfter(s: seq<byte>, n: nat, p: nat)
    requires n <= p <= |s|
    ensures IsFrame(s[n..][p - n..]) == IsFrame(s[p..])
  {
    assert s[n..][p - n..] == s[p..];
  }

  /** A frame is taken from position p exactly when one stands there and the parse stops there. */
  lemma {:induction false} TakenExactlyWhen(s: seq<byte>, p: nat)
    requires p <= |s|
    ensures p in TakenFrom(s) <==> Visits(s, p) && IsFrame(s[p..])
  {
    assert s[0..] == s;
    if |s| < FRAME_LEN {
      hide Visits;
    } else {
      var n := Advance(s);
      OneStep(s);
      FrontOrLater(IsFrame(s), Later(TakenFrom(s[n..]), n), p);
      LaterHas(TakenFrom(s[n..]), n, p);
      VisitsStep(s, p);
      hide Visits, TakenFrom, IsFrame, Later, Advance;
      if p >= n {
        TakenExactlyWhen(s[n..], p - n);
        FrameAfter(s, n, p);
      }
    }
  }

  /** Whether the parse stops at p depends on the 20 bytes from p on, at most. */
  lemma {:induction false} VisitsIsLocal(s: seq<byte>, x: seq<byte>, p: nat)
    requires p + FRAME_LEN <= |s|
    ensures Visits(s + x, p) <==> Visits(s, p)
  {
    if p > 0 {
      var n := Advance(s);
      assert (s + x)[1..CS_OFFSET] == s[1..CS_OFFSET];
      assert Advance(s + x) == n;
      if n <= p {
        Suffix(s, x, n);
        VisitsIsLocal(s[n..], x, p - n);
      }
    }
  }

  lemma EncodedIsFrame(u: seq<byte>, r: Reading, x: seq<byte>)
    ensures IsFrame((u + Encode(r) + x)[|u|..])
  {
    hide Checksum, Extract, Encode;
    EncodedFrame(r);
    FirstFrame(Encode(r), x);
    assert (u + Encode(r) + x)[|u|..] == Encode(r) + x;
  }

  /** Something at position q of s that the parse takes for 20 bytes of its own: a head with a tail 19 bytes
      on, and either another source or a matching checksum. */
  predicate Swallows(s: seq<byte>, q: nat)
    requires q + FRAME_LEN <= |s|
  {
    && s[q] == FRAME_HEAD && s[q + FRAME_LEN - 1] == FRAME_TAIL
    && (s[q + 1] != FRAME_SRC || s[q + CS_OFFSET] == Checksum(s[q + 1..q + CS_OFFSET]))
  }

  lemma SwallowsAfter(s: seq<byte>, n: nat, q: nat)
    requires n + q + FRAME_LEN <= |s|
    ensures Swallows(s[n..], q) == Swallows(s, n + q)
  {
    hide Checksum;
    assert s[n..][q + 1..q + CS_OFFSET] == s[n + q + 1..n + q + CS_OFFSET];
  }

  lemma SwallowsAtFront(s: seq<byte>)
    requires |s| >= FRAME_LEN
    ensures Advance(s) == if Swallows(s, 0) then FRAME_LEN else 1
  {
    hide Checksum;
    assert s[0 + 1..0 + CS_OFFSET] == s[1..CS_OFFSET];
  }

  /** The parse stops at some position in the last 19 bytes before p and takes 20 bytes from there. */
  predicate Swallowed(s: seq<byte>, p: nat)
    requires p + FRAME_LEN <= |s|
  {
    exists q :: 0 <= q < p < q + FRAME_LEN && Visits(s, q) && Swallows(s, q)
  }

  lemma SwallowedAfter(s: seq<byte>, p: nat)
    requires p + FRAME_LEN <= |s| && Advance(s) <= p
    ensures Swallowed(s, p) <==> Swallowed(s[Advance(s)..], p - Advance(s))
  {
    hide Swallows, Visits;
    SwallowsAtFront(s);
    hide Advance;
    var n := Advance(s);
    forall q | 0 <= q < p < q + FRAME_LEN
      ensures Visits(s, q) && Swallows(s, q) <==> n <= q && Visits(s[n..], q - n) && Swallows(s[n..], q - n)
    {
      VisitsStep(s, q);
      if n <= q {
        SwallowsAfter(s, n, q - n);
      }
    }
    if Swallowed(s[n..], p - n) {
      var q :| 0 <= q < p - n < q + FRAME_LEN && Visits(s[n..], q) && Swallows(s[n..], q);
      assert 0 <= q + n < p < q + n + FRAME_LEN;
      assert Visits(s, q + n) && Swallows(s, q + n);
    }
  }

  /** Main result: the parse passes over a position exactly when it stops in the 19 bytes before it at
      something that it takes for 20 bytes of its own. */
  lemma {:induction false} PassedOverExactlyWhen(s: seq<byte>, p: nat)
    requires p + FRAME_LEN <= |s|
    ensures Visits(s, p) <==> !Swallowed(s, p)
  {
    if p > 0 {
      VisitsStep(s, p);
      SwallowsAtFront(s);
      var n := Advance(s);
      if n <= p {
        PassedOverExactlyWhen(s[n..], p - n);
        SwallowedAfter(s, p);
      } else {
        assert Visits(s, 0) && Swallows(s, 0);
      }
      hide Visits, Swallows, Advance;
    }
  }

  /** Main result: after any bytes u, heads among them or not, the frame of r is read if and only if the parse
      does not stop, in the last 19 bytes of u, at something that it takes for 20 bytes of its own; what
      follows the frame plays no part. */
  lemma FrameIsReadIff(u: seq<byte>, r: Reading, x: seq<byte>)
    ensures |u| in TakenFrom(u + Encode(r) + x) <==> !Swallowed(u + Encode(r), |u|)
  {
    hide *;
    TakenExactlyWhen(u + Encode(r) + x, |u|);
    VisitsIsLocal(u + Encode(r), x, |u|);
    EncodedIsFrame(u, r, x);
    PassedOverExactlyWhen(u + Encode(r), |u|);
  }

  /** A frame that is read comes out as the reading that was sent. */
  lemma UnswallowedReading(u: seq<byte>, r: Reading, x: seq<byte>) returns (i: nat)
    requires !Swallowed(u + Encode(r), |u|)
    ensures var s := u + Encode(r) + x;
            i < |Parse(s)| == |TakenFrom(s)| && TakenFrom(s)[i] == |u| && Parse(s)[i] == r
  {
    hide *;
    var s := u + Encode(r) + x;
    FrameIsReadIff(u, r, x);
    ReadingsAreTakenFrom(s);
    i :| i < |TakenFrom(s)| && TakenFrom(s)[i] == |u|;
    assert s[|u|..] == Encode(r) + x;
    FirstFrame(Encode(r), x);
    EncodedReading(r);
  }

  /** So a frame is safe behind bytes in which nothing could be taken that way, visited or not. */
  lemma OnlyASwallowedFrameIsLost(s: seq<byte>, p: nat)
    requires p + FRAME_LEN <= |s|
    requires forall q :: 0 <= q < p < q + FRAME_LEN ==> !Swallows(s, q)
    ensures Visits(s, p)
  {
    PassedOverExactlyWhen(s, p);
    hide Visits, Swallows;
  }
}
