/** The management channel of one motor: an 8-bit sequence number raised by the client (stark_client.h) and
    copied to the acknowledgement by the RT thread (ProcessMgmt), interleaved one access at a time. */
module MgmtChannel {
  import opened Bytes

  /** _stark_mgmt_cmd writes the command, then increments the sequence number. */
  datatype Client = Idle | Wrote(cmd: byte)

  /** ProcessMgmt has loaded seq (differing from ack), then the command, then executed it; a command of zero
      is passed over and acknowledged. `issue` is the number of issues completed when seq was loaded. */
  datatype Rt = Scanning | LoadedSeq(seq8: byte, issue: nat) | LoadedCmd(seq8: byte, issue: nat, cmd: byte)
              | Executed(seq8: byte, issue: nat)

  datatype State = State(
    cmd: byte, seq8: byte, ack8: byte,
    client: Client, rt: Rt,
    issued: seq<byte>, taken: seq<byte>, executed: seq<byte>,
    acknowledged: nat)

  datatype Event = WriteCmd(c: byte) | IncrementSeq | LoadSeq | LoadCmd | Execute | StoreAck

  function Init(): State {
    State(0, 0, 0, Idle, Scanning, [], [], [], 0)
  }

  /** A step that is not enabled leaves the state as it is. */
  function Step(s: State, e: Event): State {
    match e
    case WriteCmd(c) => if s.client.Idle? then s.(cmd := c, client := Wrote(c)) else s
    case IncrementSeq =>
      if s.client.Idle? then s
      else s.(seq8 := (s.seq8 + 1) % 0x100, client := Idle, issued := s.issued + [s.client.cmd])
    case LoadSeq =>
      if s.rt.Scanning? && s.seq8 != s.ack8 then s.(rt := LoadedSeq(s.seq8, |s.issued|)) else s
    case LoadCmd =>
      if s.rt.LoadedSeq? then s.(rt := LoadedCmd(s.rt.seq8, s.rt.issue, s.cmd)) else s
    case Execute =>
      if s.rt.LoadedCmd?
      then s.(rt := Rt.Executed(s.rt.seq8, s.rt.issue), taken := s.taken + [s.rt.cmd],
              executed := if s.rt.cmd == 0 then s.executed else s.executed + [s.rt.cmd])
      else s
    case StoreAck =>
      if s.rt.Executed? then s.(ack8 := s.rt.seq8, acknowledged := s.rt.issue, rt := Scanning) else s
  }

  predicate LastIs(log: seq<byte>, c: byte) {
    log != [] && log[|log| - 1] == c
  }

  /** The commands issued since the one the RT thread last acknowledged. */
  function Outstanding(s: State): int {
    |s.issued| - s.acknowledged
  }

  /** The last command the RT thread took is the last one the client issued; so the last it executed is the
      last one issued, if and only if that is not zero. */
  predicate UpToDate(s: State) {
    s.issued != [] ==>
      var last := s.issued[|s.issued| - 1];
      LastIs(s.taken, last) && (LastIs(s.executed, last) <==> last != 0)
  }

  /** What is executed is what is taken, zeros left out. */
  function NonZero(log: seq<byte>): seq<byte> {
    if log == [] then []
    else
      var c := log[|log| - 1];
      if c == 0 then NonZero(log[..|log| - 1]) else NonZero(log[..|log| - 1]) + [c]
  }

  ghost predicate Inv(s: State) {
    && s.executed == NonZero(s.taken)
    && s.seq8 == |s.issued| % 0x100
    && s.ack8 == s.acknowledged % 0x100
    && s.acknowledged <= |s.issued|
    && (s.client.Wrote? ==> s.cmd == s.client.cmd)
    && (s.client.Idle? && s.issued != [] ==> LastIs(s.issued, s.cmd))
    && (s.rt.Scanning? || (s.acknowledged < s.rt.issue <= |s.issued| && s.rt.seq8 == s.rt.issue % 0x100))
    && (s.client.Idle? && s.rt.LoadedCmd? && s.rt.issue == |s.issued| ==> LastIs(s.issued, s.rt.cmd))
    && (s.client.Idle? && s.rt.Executed? && s.rt.issue == |s.issued| ==> LastIs(s.taken, s.cmd))
    && (s.client.Idle? && s.acknowledged == |s.issued| > 0 ==> LastIs(s.taken, s.cmd))
  }

  lemma {:induction false} NonZeroHasNoZero(log: seq<byte>)
    ensures forall i :: 0 <= i < |NonZero(log)| ==> NonZero(log)[i] != 0
    ensures log != [] && log[|log| - 1] != 0 ==> LastIs(NonZero(log), log[|log| - 1])
  {
    if log != [] {
      NonZeroHasNoZero(log[..|log| - 1]);
    }
  }

  lemma TakenIsUpToDate(s: State)
    requires s.executed == NonZero(s.taken) && s.issued != [] && LastIs(s.taken, s.issued[|s.issued| - 1])
    ensures UpToDate(s)
  {
    NonZeroHasNoZero(s.taken);
    hide NonZero;
  }

  lemma ClientKeepsInv(s: State, e: Event)
    requires Inv(s) && (e.WriteCmd? || e.IncrementSeq?)
    ensures Inv(Step(s, e))
  {
    hide NonZero;
    assert e.IncrementSeq? && s.client.Wrote? ==> LastIs(Step(s, e).issued, s.client.cmd);
  }

  lemma RtKeepsInv(s: State, e: Event)
    requires Inv(s) && (e.LoadSeq? || e.LoadCmd? || e.StoreAck?)
    ensures Inv(Step(s, e))
  {
    hide NonZero;
  }

  lemma ExecuteKeepsInv(s: State)
    requires Inv(s)
    ensures Inv(Step(s, Execute))
  {
    assert s.rt.LoadedCmd? ==> (s.taken + [s.rt.cmd])[..|s.taken|] == s.taken;
  }

  lemma StepKeepsInv(s: State, e: Event)
    requires Inv(s)
    ensures Inv(Step(s, e))
  {
    hide *;
    if e.WriteCmd? || e.IncrementSeq? {
      ClientKeepsInv(s, e);
    } else if e.Execute? {
      ExecuteKeepsInv(s);
    } else {
      RtKeepsInv(s, e);
    }
  }

  /** Any interleaving of the client and the RT thread. */
  function Run(es: seq<Event>): State {
    if es == [] then Init() else Step(Run(es[..|es| - 1]), es[|es| - 1])
  }

  lemma {:induction false} AlwaysInv(es: seq<Event>)
    ensures Inv(Run(es))
  {
    if es != [] {
      AlwaysInv(es[..|es| - 1]);
      StepKeepsInv(Run(es[..|es| - 1]), es[|es| - 1]);
    }
  }

  /** Main result: once the client is idle and the numbers agree, the last command is never lost, provided
      fewer than 256 issues are outstanding; earlier ones may have been skipped or executed twice. */
  lemma LastCommandIsNotLost(es: seq<Event>)
    requires var s := Run(es); s.client.Idle? && s.seq8 == s.ack8 && Outstanding(s) < 0x100
    ensures UpToDate(Run(es))
  {
    var s := Run(es);
    AlwaysInv(es);
    hide Run;
    AgreeModulo(|s.issued|, s.acknowledged);
    if s.issued != [] {
      TakenIsUpToDate(s);
    }
  }

  lemma AgreeModulo(n: nat, k: nat)
    requires k <= n && n % 0x100 == k % 0x100
    ensures (n - k) % 0x100 == 0
  {
  }

  /** Both numbers count modulo 256. */
  lemma NumbersAgreeWhen(s: State)
    requires Inv(s)
    ensures s.seq8 == s.ack8 <==> Outstanding(s) % 0x100 == 0
  {
    hide NonZero;
    if s.seq8 == s.ack8 {
      AgreeModulo(|s.issued|, s.acknowledged);
    } else if Outstanding(s) % 0x100 == 0 {
      var q := Outstanding(s) / 0x100;
      ModUnique(|s.issued|, 0x100, s.acknowledged / 0x100 + q, s.acknowledged % 0x100);
    }
  }

  /** One pass of the RT thread. */
  function Pass(s: State): State {
    Step(Step(Step(Step(s, LoadSeq), LoadCmd), Execute), StoreAck)
  }

  lemma PassKeepsInv(s: State)
    requires Inv(s)
    ensures Inv(Pass(s))
  {
    hide Inv, Step;
    StepKeepsInv(s, LoadSeq);
    StepKeepsInv(Step(s, LoadSeq), LoadCmd);
    StepKeepsInv(Step(Step(s, LoadSeq), LoadCmd), Execute);
    StepKeepsInv(Step(Step(Step(s, LoadSeq), LoadCmd), Execute), StoreAck);
  }

  /** What a pass that starts from Scanning does. */
  lemma PassDoes(s: State)
    requires s.rt.Scanning?
    ensures var t := Pass(s);
            && t.client == s.client && t.issued == s.issued && t.seq8 == s.seq8
            && (s.seq8 == s.ack8 ==> t == s)
            && (s.seq8 != s.ack8 ==> t.rt.Scanning? && t.ack8 == s.seq8 && t.acknowledged == |s.issued|)
  {
  }

  /** One pass with the client idle brings the RT thread up to date, except exactly when a positive multiple
      of 256 issues has made the numbers agree: then it does nothing. */
  lemma OnePassCatchesUp(s: State)
    requires Inv(s) && s.client.Idle? && s.rt.Scanning?
    ensures var t := Pass(s);
            && Inv(t) && t.client.Idle? && t.issued == s.issued && t.seq8 == t.ack8
            && (Outstanding(s) % 0x100 != 0 || Outstanding(s) == 0 ==> Outstanding(t) == 0 && UpToDate(t))
            && (Outstanding(s) % 0x100 == 0 ==> t == s)
  {
    PassKeepsInv(s);
    PassDoes(s);
    NumbersAgreeWhen(s);
    hide Pass, Step, NonZero;
    var t := Pass(s);
    if Outstanding(t) == 0 && t.issued != [] {
      TakenIsUpToDate(t);
    }
  }

  // ---------- the bound is sharp ----------

  /** n complete issues of command c while the RT thread does not run. */
  function Burst(c: byte, n: nat): seq<Event> {
    if n == 0 then [] else Burst(c, n - 1) + [WriteCmd(c)] + [IncrementSeq]
  }

  lemma {:induction false} AfterBurst(c: byte, n: nat)
    ensures var s := Run(Burst(c, n));
            && s.client.Idle? && s.rt.Scanning?
            && |s.issued| == n && s.taken == [] && s.executed == [] && s.acknowledged == 0
  {
    if n > 0 {
      AfterBurst(c, n - 1);
      var es := Burst(c, n - 1) + [WriteCmd(c)];
      assert es[..|es| - 1] == Burst(c, n - 1);
      assert Burst(c, n)[..|es|] == es;
    }
  }

  /** Any positive multiple of 256 issues without an RT pass looks acknowledged, and none has been taken. */
  lemma A256thIssueCanBeLost(c: byte, k: nat)
    requires k > 0
    ensures var s := Run(Burst(c, 0x100 * k));
            s.client.Idle? && s.seq8 == s.ack8 && Outstanding(s) == 0x100 * k && s.executed == [] && !UpToDate(s)
  {
    AfterBurst(c, 0x100 * k);
    AlwaysInv(Burst(c, 0x100 * k));
    NumbersAgreeWhen(Run(Burst(c, 0x100 * k)));
    hide Run, Burst;
  }

  // ---------- one command at a time ----------

  /** A command issued when all before it are acknowledged, and then one pass: it is taken, once, and executed
      unless it is zero. */
  lemma IssueThenPass(s: State, c: byte)
    requires Inv(s) && s.client.Idle? && s.rt.Scanning? && Outstanding(s) == 0
    ensures var t := Pass(Step(Step(s, WriteCmd(c)), IncrementSeq));
            && t.issued == s.issued + [c] && t.taken == s.taken + [c]
            && t.executed == (if c == 0 then s.executed else s.executed + [c])
            && t.client.Idle? && t.rt.Scanning? && Outstanding(t) == 0 && t.seq8 == t.ack8
  {
    hide NonZero;
    var issued := Step(Step(s, WriteCmd(c)), IncrementSeq);
    StepKeepsInv(s, WriteCmd(c));
    StepKeepsInv(Step(s, WriteCmd(c)), IncrementSeq);
    NumbersAgreeWhen(issued);
    assert Outstanding(issued) == 1;
  }
}
