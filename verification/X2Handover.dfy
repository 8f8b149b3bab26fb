/**
 The X2 handover state machine inside the eNB log analyser: one loop over the log lines follows an incoming
 (target) or an outgoing (source) handover through its markers and counts the completed procedures.
 */
module X2Handover {

  /** Which markers a log line contains. */
  datatype Line = Line(req: bool, recfgComplete: bool, switchReq: bool, switchAck: bool, reqAck: bool, release: bool)

  datatype State = Idle | TargetReceivesReq | TargetRecfgComplete | TargetSendsSwitchReq | SourceReceivesReqAck

  datatype Tally = Tally(state: State, inNb: nat, outNb: nat)

  /** A followed procedure: for each stage passed, the line that contained its marker. */
  datatype Procedure =
    | Incoming(req: nat, recfg: nat, switchReq: nat, switchAck: nat)
    | Outgoing(reqAck: nat, release: nat)

  function First(p: Procedure): nat { if p.Incoming? then p.req else p.reqAck }

  function Last(p: Procedure): nat { if p.Incoming? then p.switchAck else p.release }

  /** The lines of p contain its markers, in order. */
  predicate Evident(p: Procedure, lines: seq<Line>) {
    match p
    case Incoming(a, b, c, d) =>
      a <= b <= c <= d < |lines| && lines[a].req && lines[b].recfgComplete && lines[c].switchReq && lines[d].switchAck
    case Outgoing(a, b) =>
      a <= b < |lines| && lines[a].reqAck && lines[b].release
  }

  /** Procedures follow each other without sharing a line. */
  predicate InSequence(ps: seq<Procedure>) {
    forall i, j :: 0 <= i < j < |ps| ==> Last(ps[i]) < First(ps[j])
  }

  function CountIn(ps: seq<Procedure>): nat {
    if ps == [] then 0 else CountIn(ps[..|ps| - 1]) + if ps[|ps| - 1].Incoming? then 1 else 0
  }

  /** The open procedure, its lines chosen so far; entries beyond the state are meaningless. */
  predicate Open(s: State, p: Procedure, lines: seq<Line>) {
    match s
    case Idle => true
    case TargetReceivesReq => p.Incoming? && p.req < |lines| && lines[p.req].req
    case TargetRecfgComplete =>
      && p.Incoming? && p.req <= p.recfg < |lines|
      && lines[p.req].req && lines[p.recfg].recfgComplete
    case TargetSendsSwitchReq =>
      && p.Incoming? && p.req <= p.recfg <= p.switchReq < |lines|
      && lines[p.req].req && lines[p.recfg].recfgComplete && lines[p.switchReq].switchReq
    case SourceReceivesReqAck => p.Outgoing? && p.reqAck < |lines| && lines[p.reqAck].reqAck
  }

  /** The tally is that of the procedures ps, with p open. */
  predicate Explains(ps: seq<Procedure>, p: Procedure, t: Tally, lines: seq<Line>) {
    && (forall k :: 0 <= k < |ps| ==> Evident(ps[k], lines))
    && InSequence(ps)
    && t.inNb == CountIn(ps) && t.outNb == |ps| - CountIn(ps)
    && Open(t.state, p, lines)
    && (t.state != Idle && ps != [] ==> Last(ps[|ps| - 1]) < First(p))
  }

  /** The loop of the analyser.  It follows procedures that are evident in the log and share no line. */
  method AnalyzeLog(lines: seq<Line>) returns (t: Tally)
    ensures t == Run(lines)
    ensures exists ps, p :: Explains(ps, p, t, lines)
  {
    var state, inNb, outNb := Idle, 0, 0;
    for i := 0 to |lines|
      invariant Tally(state, inNb, outNb) == Run(lines[..i])
    {
      var line := lines[i];
      ghost var before := Tally(state, inNb, outNb);
      if state == Idle {
        if line.req { state := TargetReceivesReq; }
        if line.reqAck { state := SourceReceivesReqAck; }
      }
      if state == TargetReceivesReq {
        if line.recfgComplete { state := TargetRecfgComplete; }
      }
      if state == TargetRecfgComplete {
        if line.switchReq { state := TargetSendsSwitchReq; }
      }
      if state == TargetSendsSwitchReq {
        if line.switchAck { state, inNb := Idle, inNb + 1; }
      }
      if state == SourceReceivesReqAck {
        if line.release { state, outNb := Idle, outNb + 1; }
      }
      assert Tally(state, inNb, outNb) == Next(before, line);
      assert lines[..i + 1][..i] == lines[..i];
    }
    assert lines[..|lines|] == lines;
    ghost var ps, p := Explained(lines);
    return Tally(state, inNb, outNb);
  }

  // ---- One line ----

  /** The state from which the line is read: an idle analyser may first start a procedure. */
  function Started(s: State, line: Line): State {
    if s != Idle then s else if line.reqAck then SourceReceivesReqAck else if line.req then TargetReceivesReq else Idle
  }

  /** Whether the line holds all markers that the procedure in state s still lacks. */
  predicate Completes(s: State, line: Line) {
    match s
    case Idle => false
    case TargetReceivesReq => line.recfgComplete && line.switchReq && line.switchAck
    case TargetRecfgComplete => line.switchReq && line.switchAck
    case TargetSendsSwitchReq => line.switchAck
    case SourceReceivesReqAck => line.release
  }

  /** The state reached by a line that completes nothing. */
  function Advanced(s: State, line: Line): State {
    if s == TargetReceivesReq && line.recfgComplete then
      if line.switchReq then TargetSendsSwitchReq else TargetRecfgComplete
    else if s == TargetRecfgComplete && line.switchReq then TargetSendsSwitchReq
    else s
  }

  function Next(t: Tally, line: Line): Tally {
    var s := Started(t.state, line);
    if !Completes(s, line) then t.(state := Advanced(s, line))
    else if s == SourceReceivesReqAck then Tally(Idle, t.inNb, t.outNb + 1)
    else Tally(Idle, t.inNb + 1, t.outNb)
  }

  function Run(lines: seq<Line>): Tally {
    if lines == [] then Tally(Idle, 0, 0) else Next(Run(lines[..|lines| - 1]), lines[|lines| - 1])
  }

  /** The procedure with the stages that line i adds to it. */
  function Extend(s: State, p: Procedure, line: Line, i: nat): Procedure {
    match s
    case Idle => if line.reqAck then Outgoing(i, i) else Incoming(i, i, i, i)
    case TargetReceivesReq => if p.Incoming? then Incoming(p.req, i, i, i) else p
    case TargetRecfgComplete => if p.Incoming? then Incoming(p.req, p.recfg, i, i) else p
    case TargetSendsSwitchReq => if p.Incoming? then Incoming(p.req, p.recfg, p.switchReq, i) else p
    case SourceReceivesReqAck => if p.Outgoing? then Outgoing(p.reqAck, i) else p
  }

  /** Main result: what the analyser counted are procedures that are evident in the log and share no line. */
  lemma {:induction false} Explained(lines: seq<Line>) returns (ps: seq<Procedure>, p: Procedure)
    ensures Explains(ps, p, Run(lines), lines)
  {
    if lines == [] {
      ps, p := [], Outgoing(0, 0);
    } else {
      var n := |lines| - 1;
      var init := lines[..n];
      ps, p := Explained(init);
      var t, line := Run(init), lines[n];
      StillEvident(ps, lines, n);
      ExtendOpens(t.state, p, lines, n);
      assert lines[..n + 1] == lines;
      var q := Extend(t.state, p, line, n);
      if Completes(Started(t.state, line), line) {
        OneMore(ps, q, lines);
        ps := ps + [q];
      }
      p := q;
    }
  }

  /** Procedures of a prefix end before its length. */
  lemma StillEvident(ps: seq<Procedure>, lines: seq<Line>, n: nat)
    requires n <= |lines| && forall k :: 0 <= k < |ps| ==> Evident(ps[k], lines[..n])
    ensures forall k :: 0 <= k < |ps| ==> Evident(ps[k], lines) && Last(ps[k]) < n
  {
    forall k | 0 <= k < |ps| ensures Evident(ps[k], lines) && Last(ps[k]) < n {
      assert Evident(ps[k], lines[..n]);
    }
  }

  lemma OneMore(ps: seq<Procedure>, q: Procedure, lines: seq<Line>)
    requires (forall k :: 0 <= k < |ps| ==> Evident(ps[k], lines)) && InSequence(ps) && Evident(q, lines)
    requires ps != [] ==> Last(ps[|ps| - 1]) < First(q)
    ensures var ps' := ps + [q];
            && (forall k :: 0 <= k < |ps'| ==> Evident(ps'[k], lines)) && InSequence(ps')
            && CountIn(ps') == CountIn(ps) + One(q.Incoming?)
  {
    var ps' := ps + [q];
    assert ps'[..|ps|] == ps;
    forall i | 0 <= i < |ps| ensures Last(ps[i]) < First(q) {
      if i < |ps| - 1 { assert Evident(ps[|ps| - 1], lines); }
    }
  }

  /** The extended procedure keeps its start, is open where the line leads, and is evident if the line completes it. */
  lemma ExtendOpens(s: State, p: Procedure, lines: seq<Line>, i: nat)
    requires i < |lines| && Open(s, p, lines[..i])
    ensures var line, q := lines[i], Extend(s, p, lines[i], i);
            && First(q) == (if s == Idle then i else First(p))
            && (Completes(Started(s, line), line) ==>
                  && Evident(q, lines[..i + 1]) && Last(q) == i
                  && (q.Incoming? <==> Started(s, line) != SourceReceivesReqAck))
            && (!Completes(Started(s, line), line) ==> Open(Advanced(Started(s, line), line), q, lines[..i + 1]))
  {
    assert forall k :: 0 <= k < i ==> lines[..i + 1][k] == lines[..i][k];
    assert lines[..i + 1][i] == lines[i];
  }

  // ---- Counts ----

  function Count(lines: seq<Line>, has: Line -> bool): nat {
    if lines == [] then 0 else Count(lines[..|lines| - 1], has) + if has(lines[|lines| - 1]) then 1 else 0
  }

  /** How many stages the open incoming procedure has passed. */
  function Stage(s: State): nat {
    match s
    case TargetReceivesReq => 1
    case TargetRecfgComplete => 2
    case TargetSendsSwitchReq => 3
    case _ => 0
  }

  function One(b: bool): nat { if b then 1 else 0 }

  /** Completed procedures, plus one for an open one that has passed the stage, never exceed the lines with the
      marker of that stage. */
  lemma {:induction false} NeverMoreThanMarkers(lines: seq<Line>)
    ensures var t := Run(lines);
            && t.inNb + One(Stage(t.state) >= 1) <= Count(lines, (l: Line) => l.req)
            && t.inNb + One(Stage(t.state) >= 2) <= Count(lines, (l: Line) => l.recfgComplete)
            && t.inNb + One(Stage(t.state) >= 3) <= Count(lines, (l: Line) => l.switchReq)
            && t.inNb <= Count(lines, (l: Line) => l.switchAck)
            && t.outNb + One(t.state == SourceReceivesReqAck) <= Count(lines, (l: Line) => l.reqAck)
            && t.outNb <= Count(lines, (l: Line) => l.release)
  {
    if lines != [] { NeverMoreThanMarkers(lines[..|lines| - 1]); }
  }

  /** Each line completes at most one procedure, and then leaves the analyser idle. */
  lemma OneCompletionPerLine(lines: seq<Line>, line: Line)
    ensures var t, t' := Run(lines), Run(lines + [line]);
            && t.inNb + t.outNb <= t'.inNb + t'.outNb <= t.inNb + t.outNb + 1
            && t.inNb <= t'.inNb && t.outNb <= t'.outNb
            && (t'.inNb + t'.outNb > t.inNb + t.outNb ==> t'.state == Idle)
  {
    assert (lines + [line])[..|lines|] == lines;
  }

  // ---- What is in the log is counted ----

  lemma OneMoreLine(lines: seq<Line>, i: nat)
    requires i < |lines|
    ensures Run(lines[..i + 1]) == Next(Run(lines[..i]), lines[i])
  {
    assert lines[..i + 1][..i] == lines[..i];
  }

  /** The stages whose lines were read when i lines were. */
  function Passed(p: Procedure, i: nat): nat
    requires p.Incoming?
  {
    One(p.req < i) + One(p.recfg < i) + One(p.switchReq < i)
  }

  /** One line takes an incoming handover from stage k to stage m, or beyond, if it has the markers in between. */
  lemma IncomingStep(t: Tally, line: Line, k: nat, m: nat)
    requires Stage(Started(t.state, line)) >= k >= 1 && m <= 3
    requires (m >= 2 ==> k >= 2 || line.recfgComplete) && (m >= 3 ==> k >= 3 || line.switchReq)
    ensures var t' := Next(t, line);
            t'.inNb > t.inNb || (t'.inNb == t.inNb && Stage(t'.state) >= m && !(m == 3 && line.switchAck))
  {
  }

  /** While the lines of an incoming handover are read, it is counted or as far as they allow. */
  lemma {:induction false} IncomingFollowed(lines: seq<Line>, p: Procedure, i: nat)
    requires p.Incoming? && Evident(p, lines) && p.req < i <= p.switchAck + 1
    requires Run(lines[..p.req]).state == Idle && !lines[p.req].reqAck
    ensures var t, start := Run(lines[..i]), Run(lines[..p.req]);
            && t.inNb >= start.inNb
            && (t.inNb == start.inNb ==> Stage(t.state) >= Passed(p, i) && i <= p.switchAck)
  {
    var t, line := Run(lines[..i - 1]), lines[i - 1];
    OneMoreLine(lines, i - 1);
    if i - 1 == p.req {
      IncomingStep(t, line, 1, Passed(p, i));
    } else {
      IncomingFollowed(lines, p, i - 1);
      if t.inNb == Run(lines[..p.req]).inNb { IncomingStep(t, line, Passed(p, i - 1), Passed(p, i)); }
    }
  }

  /** Main result: an incoming handover that begins while the analyser is idle, on a line without an acknowledgement, is
      counted by the line that completes it at the latest. */
  lemma IncomingCounted(lines: seq<Line>, p: Procedure)
    requires p.Incoming? && Evident(p, lines) && Run(lines[..p.req]).state == Idle && !lines[p.req].reqAck
    ensures Run(lines[..p.switchAck + 1]).inNb > Run(lines[..p.req]).inNb
  {
    IncomingFollowed(lines, p, p.switchAck + 1);
  }

  lemma {:induction false} OutgoingFollowed(lines: seq<Line>, p: Procedure, i: nat)
    requires p.Outgoing? && Evident(p, lines) && p.reqAck < i <= p.release + 1 && Run(lines[..p.reqAck]).state == Idle
    ensures var t, start := Run(lines[..i]), Run(lines[..p.reqAck]);
            && t.outNb >= start.outNb
            && (t.outNb == start.outNb ==> t.state == SourceReceivesReqAck && i <= p.release)
  {
    OneMoreLine(lines, i - 1);
    if i - 1 > p.reqAck { OutgoingFollowed(lines, p, i - 1); }
  }

  /** Main result: so is every outgoing handover that begins while the analyser is idle. */
  lemma OutgoingCounted(lines: seq<Line>, p: Procedure)
    requires p.Outgoing? && Evident(p, lines) && Run(lines[..p.reqAck]).state == Idle
    ensures Run(lines[..p.release + 1]).outNb > Run(lines[..p.reqAck]).outNb
  {
    OutgoingFollowed(lines, p, p.release + 1);
  }

  /** An incoming handover is missed if the acknowledgement of an outgoing one is on the same line as its request. */
  lemma AcknowledgementWins(line: Line)
    requires line.req && line.reqAck
    ensures Run([line]).inNb == 0 && Run([line]).state == if line.release then Idle else SourceReceivesReqAck
  {
    assert [line][..0] == [];
  }
}
