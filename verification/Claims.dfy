/** Exclusive import (`usbip_server.go`): the claim set of the server, what one
    connection does to it, and any number of connections at once. */
module Claims {
  import opened Machines

  type BusId = string

  // ------------------------------------------------------------ one connection

  /** A control message that arrives, and how serving it goes: a write to a dropped
      socket panics, and so does a command of an imported device whose read or write
      fails. */
  datatype Control =
    | DevList(written: bool)
    | Import(busId: BusId, written: bool, commands: seq<bool>)
    | Unknown

  /** The commands before the first that panics. */
  function Leading(commands: seq<bool>): (n: nat)
    ensures n <= |commands| && (forall i :: 0 <= i < n ==> commands[i]) && (n < |commands| ==> !commands[n])
  {
    if commands == [] || !commands[0] then 0 else 1 + Leading(commands[1..])
  }

  /** The messages whose reply cannot be written: serving one of them panics, and that
      ends the connection. */
  predicate Ends(m: Control) {
    !m.Unknown? && !m.written
  }

  class USBIPServer {
    const devices: set<BusId>
    var imported: map<BusId, bool>

    ghost function Claimed(): set<BusId>
      reads this
    {
      set b <- imported | imported[b]
    }

    constructor (devices: set<BusId>)
      ensures this.devices == devices && Claimed() == {}
    {
      this.devices, imported := devices, map[];
    }

    method ClaimDevice(busId: BusId) returns (ok: bool)
      modifies this
      ensures ok <==> busId !in old(Claimed())
      ensures Claimed() == old(Claimed()) + {busId}
    {
      if busId in imported && imported[busId] { return false; }
      imported := imported[busId := true];
      ok := true;
    }

    method ReleaseDevice(busId: BusId)
      modifies this
      ensures Claimed() == old(Claimed()) - {busId}
    {
      imported := imported - {busId};
    }

    /** `handleCommands`: serves until a command panics, and returns normally. The device
        is driven only while it is claimed. */
    method HandleCommands(busId: BusId, commands: seq<bool>) returns (served: nat)
      requires busId in Claimed()
      ensures served == Leading(commands)
      ensures served <= |commands| && (forall i :: 0 <= i < served ==> commands[i])
      ensures served < |commands| ==> !commands[served]
    {
      served := 0;
      while served < |commands| && commands[served]
        invariant served <= |commands| && served + Leading(commands[served..]) == Leading(commands)
      {
        served := served + 1;
      }
    }

    /** The import branch after the claim. The release is deferred: it runs on both ways
        out, after a panic and after a normal return. */
    method ServeImport(busId: BusId, written: bool, commands: seq<bool>) returns (panicked: bool, served: nat)
      requires busId in Claimed()
      modifies this
      ensures Claimed() == old(Claimed()) - {busId}
      ensures panicked <==> !written
      ensures served == if written then Leading(commands) else 0
    {
      panicked, served := !written, 0;
      if !panicked {
        served := HandleCommands(busId, commands);
      }
      ReleaseDevice(busId);
    }

    /** `handle`, for a connection on its own: it serves its messages up to the first one
        that ends it, and if there is none the next read fails. Wherever it panics, the
        connection leaves no claim behind and takes none away; it got exactly the devices
        that exist and that nobody held. */
    method Handle(messages: seq<Control>) returns (accepted: seq<bool>)
      modifies this
      ensures Claimed() == old(Claimed())
      ensures |accepted| <= |messages|
      ensures forall i :: 0 <= i < |accepted| ==> (Ends(messages[i]) ==> i == |accepted| - 1)
      ensures |accepted| < |messages| ==> accepted != [] && Ends(messages[|accepted| - 1])
      ensures forall i :: 0 <= i < |accepted| ==>
                (accepted[i] <==> messages[i].Import? && messages[i].busId in devices - old(Claimed()))
    {
      accepted := [];
      var alive := true;
      while alive && |accepted| < |messages|
        invariant Claimed() == old(Claimed()) && |accepted| <= |messages|
        invariant forall i :: 0 <= i < |accepted| ==> (Ends(messages[i]) ==> i == |accepted| - 1 && !alive)
        invariant !alive ==> accepted != [] && Ends(messages[|accepted| - 1])
        invariant forall i :: 0 <= i < |accepted| ==>
          (accepted[i] <==> messages[i].Import? && messages[i].busId in devices - old(Claimed()))
        decreases |messages| - |accepted|
      {
        var took := false;
        match messages[|accepted|] {
          case DevList(written) => alive := written;
          case Unknown =>
          case Import(busId, written, commands) =>
            if busId !in devices {
              alive := written;
            } else {
              took := ClaimDevice(busId);
              if took {
                var panicked, _ := ServeImport(busId, written, commands);
                alive := !panicked;
              } else {
                alive := written;
              }
            }
        }
        accepted := accepted + [took];
      }
    }
  }

  // ------------------------------------------------------------ many connections

  /** Where a connection is. Inside the import branch it replies, serves commands, and
      runs the deferred release; `panicked` says that the branch ends by a panic, which
      ends the connection too. */
  datatype Conn =
    | Reading
    | Replying(busId: BusId)
    | Serving(busId: BusId)
    | Releasing(busId: BusId, panicked: bool)
    | Ended

  /** A claim or a release by a connection. */
  datatype Entry = Claimed(c: nat, busId: BusId) | Released(c: nat, busId: BusId)

  datatype State = State(conns: map<nat, Conn>, claims: set<BusId>, log: seq<Entry>)

  /** What a connection's goroutine can do next: it is accepted; a message other than an
      import is served; reading or replying panics; it asks for a device; its import
      reply is written or not; a command is served or panics; the deferred release runs. */
  datatype Move = Accept | Serve | Break | Ask(busId: BusId) | Reply(written: bool) | Command(ok: bool) | Release

  datatype Action = Action(c: nat, move: Move)

  predicate Inside(k: Conn) {
    k.Replying? || k.Serving? || k.Releasing?
  }

  function Put(s: State, c: nat, k: Conn): State {
    s.(conns := s.conns[c := k])
  }

  function Step(s: State, a: Action): State {
    if a.c !in s.conns then
      if a.move.Accept? then Put(s, a.c, Reading) else s
    else match (s.conns[a.c], a.move)
      case (Reading, Break) => Put(s, a.c, Ended)
      case (Reading, Ask(b)) => if b in s.claims then s else
        Put(s, a.c, Replying(b)).(claims := s.claims + {b}, log := s.log + [Claimed(a.c, b)])
      case (Replying(b), Reply(written)) => Put(s, a.c, if written then Serving(b) else Releasing(b, true))
      case (Serving(b), Command(ok)) => if ok then s else Put(s, a.c, Releasing(b, false))
      case (Releasing(b, panicked), Release) =>
        Put(s, a.c, if panicked then Ended else Reading).(claims := s.claims - {b}, log := s.log + [Released(a.c, b)])
      case _ => s
  }

  function After(actions: seq<Action>): State {
    Final((s, a) => (Step(s, a), ()), State(map[], {}, []), actions)
  }

  predicate HeldBy(s: State, b: BusId, c: nat) {
    c in s.conns && Inside(s.conns[c]) && s.conns[c].busId == b
  }

  /** The claims are the devices held inside the import branch, each by one connection. */
  ghost predicate Exclusive(s: State) {
    && (forall b :: b in s.claims ==> exists c :: HeldBy(s, b, c))
    && (forall b, c :: HeldBy(s, b, c) ==> b in s.claims)
    && (forall b, c, d :: HeldBy(s, b, c) && HeldBy(s, b, d) ==> c == d)
  }

  lemma ClaimKeeps(s: State, c: nat, b: BusId)
    requires Exclusive(s) && c in s.conns && s.conns[c].Reading? && b !in s.claims
    ensures Exclusive(Step(s, Action(c, Ask(b))))
  {
    var t := Step(s, Action(c, Ask(b)));
    forall x ensures x in t.claims ==> exists d :: HeldBy(t, x, d) {
      if x == b {
        assert HeldBy(t, x, c);
      } else if x in s.claims {
        var d :| HeldBy(s, x, d);
        assert HeldBy(t, x, d);
      }
    }
    forall x, d ensures HeldBy(t, x, d) ==> x in t.claims && (d != c ==> HeldBy(s, x, d)) {
      if HeldBy(t, x, d) && d != c {
        assert HeldBy(s, x, d);
      }
    }
  }

  lemma ReleaseKeeps(s: State, c: nat)
    requires Exclusive(s) && c in s.conns && s.conns[c].Releasing?
    ensures Exclusive(Step(s, Action(c, Release)))
  {
    var b, t := s.conns[c].busId, Step(s, Action(c, Release));
    assert HeldBy(s, b, c);
    forall x ensures x in t.claims ==> exists d :: HeldBy(t, x, d) {
      if x in t.claims {
        var d :| HeldBy(s, x, d);
        assert HeldBy(t, x, d);
      }
    }
    forall x, d ensures HeldBy(t, x, d) ==> HeldBy(s, x, d) && d != c {
    }
  }

  /** A step that neither claims nor releases. */
  lemma OtherKeeps(s: State, a: Action)
    requires Exclusive(s) && !a.move.Ask? && !a.move.Release?
    ensures Exclusive(Step(s, a))
  {
    var t := Step(s, a);
    forall x, d ensures HeldBy(t, x, d) <==> HeldBy(s, x, d) {
    }
  }

  lemma StepKeeps(s: State, a: Action)
    requires Exclusive(s)
    ensures Exclusive(Step(s, a))
  {
    if a.c in s.conns && a.move.Ask? && s.conns[a.c].Reading? && a.move.busId !in s.claims {
      ClaimKeeps(s, a.c, a.move.busId);
    } else if a.c in s.conns && a.move.Release? && s.conns[a.c].Releasing? {
      ReleaseKeeps(s, a.c);
    } else if !a.move.Ask? && !a.move.Release? {
      OtherKeeps(s, a);
    }
  }

  function Count(log: seq<Entry>, e: Entry): nat {
    if log == [] then 0 else Count(log[..|log| - 1], e) + if log[|log| - 1] == e then 1 else 0
  }

  /** A connection has released a device as often as it has claimed it, unless it holds it. */
  predicate PairedAt(claimed: nat, released: nat, held: bool) {
    claimed == released + if held then 1 else 0
  }

  ghost predicate Paired(s: State) {
    forall c: nat, b :: PairedAt(Count(s.log, Claimed(c, b)), Count(s.log, Released(c, b)), HeldBy(s, b, c))
  }

  lemma CountMore(log: seq<Entry>, x: Entry, e: Entry)
    ensures Count(log + [x], e) == Count(log, e) + if x == e then 1 else 0
  {
    assert (log + [x])[..|log|] == log;
  }

  /** What a step notes, and whom it concerns. */
  lemma StepNotes(s: State, a: Action, c: nat, b: BusId)
    ensures var t := Step(s, a);
            || (t.log == s.log && (HeldBy(t, b, c) <==> HeldBy(s, b, c)))
            || (exists d :: t.log == s.log + [Claimed(a.c, d)]
                  && if c == a.c && b == d then HeldBy(t, b, c) && !HeldBy(s, b, c)
                     else HeldBy(t, b, c) <==> HeldBy(s, b, c))
            || (exists d :: t.log == s.log + [Released(a.c, d)]
                  && if c == a.c && b == d then HeldBy(s, b, c) && !HeldBy(t, b, c)
                     else HeldBy(t, b, c) <==> HeldBy(s, b, c))
  {
  }

  lemma StepPairs(s: State, a: Action)
    requires Paired(s)
    ensures Paired(Step(s, a))
  {
    var t := Step(s, a);
    forall c: nat, b ensures PairedAt(Count(t.log, Claimed(c, b)), Count(t.log, Released(c, b)), HeldBy(t, b, c)) {
      assert PairedAt(Count(s.log, Claimed(c, b)), Count(s.log, Released(c, b)), HeldBy(s, b, c));
      StepNotes(s, a, c, b);
      NotesPair(s.log, t.log, a.c, c, b, HeldBy(s, b, c), HeldBy(t, b, c));
    }
  }

  lemma NotesPair(log: seq<Entry>, log': seq<Entry>, a: nat, c: nat, b: BusId, held: bool, held': bool)
    requires PairedAt(Count(log, Claimed(c, b)), Count(log, Released(c, b)), held)
    requires || (log' == log && held' == held)
             || (exists d :: log' == log + [Claimed(a, d)] && if c == a && b == d then held' && !held else held' == held)
             || (exists d :: log' == log + [Released(a, d)] && if c == a && b == d then held && !held' else held' == held)
    ensures PairedAt(Count(log', Claimed(c, b)), Count(log', Released(c, b)), held')
  {
    if log' != log {
      var e := log'[|log|];
      CountMore(log, e, Claimed(c, b));
      CountMore(log, e, Released(c, b));
    }
  }

  lemma {:induction false} RunKeeps(actions: seq<Action>)
    ensures Exclusive(After(actions)) && Paired(After(actions))
  {
    if actions != [] {
      var n := |actions| - 1;
      assert actions == actions[..n] + [actions[n]];
      Append((s, a) => (Step(s, a), ()), State(map[], {}, []), actions[..n], actions[n]);
      RunKeeps(actions[..n]);
      StepKeeps(After(actions[..n]), actions[n]);
      StepPairs(After(actions[..n]), actions[n]);
    }
  }

  /** In every reachable state, with any number of connections: the claim set is exactly
      the devices held inside the import branch, each held by one connection; and a
      connection that has ended, by a panic or otherwise, has given back every device as
      often as it ever claimed it. */
  lemma ExclusiveImport(actions: seq<Action>, c: nat, b: BusId)
    ensures Exclusive(After(actions))
    ensures var s := After(actions);
            c in s.conns && s.conns[c].Ended? ==> Count(s.log, Claimed(c, b)) == Count(s.log, Released(c, b))
  {
    RunKeeps(actions);
    assert !(c in After(actions).conns && After(actions).conns[c].Ended?) || !HeldBy(After(actions), b, c);
  }

  /** A connection that asks for a device gets it exactly if no connection is between
      claiming and releasing it. */
  lemma ImportIff(actions: seq<Action>, c: nat, b: BusId)
    requires c in After(actions).conns && After(actions).conns[c].Reading?
    ensures HeldBy(Step(After(actions), Action(c, Ask(b))), b, c) <==> forall d :: !HeldBy(After(actions), b, d)
  {
    RunKeeps(actions);
  }

  /** However its branch ends, two steps of the connection itself give the device back. */
  lemma PanicReleases(actions: seq<Action>, c: nat)
    requires c in After(actions).conns && Inside(After(actions).conns[c]) && !After(actions).conns[c].Releasing?
    ensures var s := After(actions);
            var b := s.conns[c].busId;
            var panic := if s.conns[c].Replying? then Reply(false) else Command(false);
            var t := Step(Step(s, Action(c, panic)), Action(c, Release));
            && b !in t.claims && t.claims == s.claims - {b} && forall d :: !HeldBy(t, b, d)
  {
    RunKeeps(actions);
    var s := After(actions);
    var panic := Action(c, if s.conns[c].Replying? then Reply(false) else Command(false));
    StepKeeps(s, panic);
    StepKeeps(Step(s, panic), Action(c, Release));
  }
}
