/** Looking an account up on other servers: replies, the time limit and shutdown race for a channel that
    is closed in the end. */
module AccountFetch {
  import opened Basics

  type Thread = nat

  /** A reply; an empty one says that a server does not know the account. */
  type Msg = string

  /** What the reply handler and the fetching routine share: the replies still waited for, whether the
      handler is registered, and the channel, which holds one message. */
  datatype Shared = Shared(expected: int, registered: bool, channel: Option<Msg>, closed: bool, panicked: bool)

  /** A full channel takes nothing, and sending on a closed one panics. */
  function Sent(s: Shared, msg: Msg): (s': Shared) {
    if s.closed then s.(panicked := true)
    else if s.channel == None then s.(channel := Some(msg))
    else s
  }

  function Handled(s: Shared, msg: Msg): (s': Shared) {
    var left := s.(expected := s.expected - 1);
    if msg == "" && left.expected > 0 then left
    else if s.registered then Sent(left, msg)
    else left
  }

  class Fetch {
    var shared: Shared

    /** As many replies are waited for as servers are known, and none has come. */
    constructor (servers: nat)
      ensures Inv(World(servers, shared, Waiting, map[], [])) && shared.channel == None
    {
      shared := Shared(servers, true, None, false, false);
    }

    method OnReply(msg: Msg)
      modifies this
      ensures shared == Handled(old(shared), msg)
    {
      var isEmpty := |msg| == 0;
      shared := shared.(expected := shared.expected - 1);
      if isEmpty && shared.expected > 0 {
        return;
      }
      if shared.registered {
        shared := Sent(shared, msg);
      }
    }

    method Unregister()
      modifies this
      ensures shared == old(shared).(registered := false)
    {
      shared := shared.(registered := false);
    }

    method Close()
      modifies this
      ensures shared == old(shared).(closed := true)
    {
      shared := shared.(closed := true);
    }
  }

  // ----- all together -----

  datatype Outcome = Got(msg: Msg) | TimedOut | ShutDown

  /** Where the fetching routine is. */
  datatype Where = Waiting | Woken(o: Outcome) | Leaving(o: Outcome) | Done(o: Outcome)

  /** With the replies that were handled, in order, and those that found the handler and are about to
      call it. */
  datatype World = World(servers: nat, shared: Shared, at: Where, calls: map<Thread, Msg>, handled: seq<Msg>)

  datatype Op =
    | Arrive(t: Thread, msg: Msg)   // a reply looks the handler up
    | Call(t: Thread)               // and calls it, perhaps much later
    | Receive
    | Time
    | Quit
    | Unregister
    | Close

  predicate IsEnabled(w: World, op: Op) {
    match op
    case Arrive(t, _) => t !in w.calls
    case Call(t) => t in w.calls
    case Receive => w.at == Waiting && w.shared.channel != None
    case Time => w.at == Waiting
    case Quit => w.at == Waiting
    case Unregister => w.at.Woken?
    case Close => w.at.Leaving?
  }

  function Next(w: World, op: Op): (w': World)
    requires IsEnabled(w, op)
  {
    match op
    case Arrive(t, msg) => if w.shared.registered then w.(calls := w.calls[t := msg]) else w
    case Call(t) => w.(shared := Handled(w.shared, w.calls[t]), calls := w.calls - {t}, handled := w.handled + [w.calls[t]])
    case Receive => w.(shared := w.shared.(channel := None), at := Woken(Got(w.shared.channel.value)))
    case Time => w.(at := Woken(TimedOut))
    case Quit => w.(at := Woken(ShutDown))
    case Unregister => w.(shared := w.shared.(registered := false), at := Leaving(w.at.o))
    case Close => w.(shared := w.shared.(closed := true), at := Done(w.at.o))
  }

  function Start(servers: nat): (w: World) {
    World(servers, Shared(servers, true, None, false, false), Waiting, map[], [])
  }

  /** A reply settles the matter: it names the account, or it is the last that was waited for. */
  predicate Settles(w: World, i: nat)
    requires i < |w.handled|
  {
    w.handled[i] != "" || i + 1 >= w.servers
  }

  predicate IsFirst(w: World, i: nat) {
    i < |w.handled| && Settles(w, i) && forall j: nat :: j < i ==> !Settles(w, j)
  }

  /** The channel is closed only when no handler can send on it any more. The message that the routine
      gets, or is about to get, is the first reply that settles the matter. */
  ghost predicate Inv(w: World) {
    && (w.shared.registered <==> w.at.Waiting? || w.at.Woken?) && (w.shared.closed <==> w.at.Done?) && !w.shared.panicked
    && w.shared.expected == w.servers - |w.handled|
    && (w.at.Waiting? && w.shared.channel == None ==> forall i: nat :: i < |w.handled| ==> !Settles(w, i))
    && (w.at.Waiting? && w.shared.channel != None ==>
          exists i: nat :: IsFirst(w, i) && w.handled[i] == w.shared.channel.value)
    && (!w.at.Waiting? && w.at.o.Got? ==> exists i: nat :: IsFirst(w, i) && w.handled[i] == w.at.o.msg)
  }

  lemma FirstStays(w: World, w': World, i: nat)
    requires IsFirst(w, i) && w'.servers == w.servers && w.handled <= w'.handled
    ensures IsFirst(w', i) && w'.handled[i] == w.handled[i]
  {
    forall j: nat | j < i
      ensures !Settles(w', j)
    {
      assert !Settles(w, j);
    }
  }

  lemma CallKeeps(w: World, t: Thread)
    requires Inv(w) && t in w.calls
    ensures Inv(Next(w, Call(t)))
  {
    var w', n := Next(w, Call(t)), |w.handled|;
    assert w'.handled[..n] == w.handled && w'.handled[n] == w.calls[t];
    if w.at.Waiting? && w.shared.channel == None {
      forall j: nat | j < n
        ensures !Settles(w', j)
      {
        assert !Settles(w, j);
      }
      assert Settles(w', n) ==> IsFirst(w', n);
    } else if w.at.Waiting? || w.at.o.Got? {
      var i: nat :| IsFirst(w, i) && w.handled[i] == if w.at.Waiting? then w.shared.channel.value else w.at.o.msg;
      FirstStays(w, w', i);
    }
  }

  lemma NextKeeps(w: World, op: Op)
    requires Inv(w) && IsEnabled(w, op)
    ensures Inv(Next(w, op))
  {
    if op.Call? {
      CallKeeps(w, op.t);
    } else {
      var w' := Next(w, op);
      assert forall i: nat :: i < |w.handled| ==> (Settles(w', i) <==> Settles(w, i));
      assert forall i: nat :: IsFirst(w, i) ==> IsFirst(w', i);
    }
  }

  ghost predicate IsRun(ws: seq<World>, ops: seq<Op>, servers: nat) {
    && |ws| == |ops| + 1 && ws[0] == Start(servers)
    && forall k :: 0 <= k < |ops| ==> IsEnabled(ws[k], ops[k]) && ws[k + 1] == Next(ws[k], ops[k])
  }

  /** However replies, the time limit and shutdown interleave: no reply is ever sent on the closed channel,
      not even one that found the handler before it was taken away. */
  lemma {:induction false} RunIsSafe(ws: seq<World>, ops: seq<Op>, servers: nat, k: nat)
    requires IsRun(ws, ops, servers) && k < |ws|
    ensures !ws[k].shared.panicked && Inv(ws[k]) && ws[k].servers == servers
  {
    if k > 0 {
      RunIsSafe(ws, ops, servers, k - 1);
      NextKeeps(ws[k - 1], ops[k - 1]);
    }
  }

  /** A text is returned only if it is the first that any server sent, and while replies were still waited
      for; not found is reported only after at least as many replies as servers were known, and at least
      one, all of them empty. */
  lemma OutcomeIsRight(ws: seq<World>, ops: seq<Op>, servers: nat, k: nat)
    requires IsRun(ws, ops, servers) && k < |ws| && !ws[k].at.Waiting? && ws[k].at.o.Got?
    ensures var got, handled := ws[k].at.o.msg, ws[k].handled;
            exists i :: 0 <= i < |handled| && handled[i] == got && (forall j :: 0 <= j < i ==> handled[j] == "")
                        && (got != "" ==> i == 0 || i < servers) && (got == "" ==> i + 1 >= servers)
  {
    RunIsSafe(ws, ops, servers, k);
    var w := ws[k];
    var i: nat :| IsFirst(w, i) && w.handled[i] == w.at.o.msg;
    forall j: nat | j < i
      ensures w.handled[j] == "" && j + 1 < servers
    {
      assert !Settles(w, j);
    }
    assert Settles(w, i) && (i > 0 ==> !Settles(w, i - 1));
  }

  /** While the routine waits with nothing in the channel, nothing has come that should have woken it. */
  lemma NothingMissed(ws: seq<World>, ops: seq<Op>, servers: nat, k: nat, i: nat)
    requires IsRun(ws, ops, servers) && k < |ws| && ws[k].at.Waiting? && ws[k].shared.channel == None
    requires i < |ws[k].handled|
    ensures ws[k].handled[i] == "" && i + 1 < servers
  {
    RunIsSafe(ws, ops, servers, k);
    assert !Settles(ws[k], i);
  }
}
