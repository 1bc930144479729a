/**
 The manager's side of a host as it runs: waiting for a reply, draining
 events, and a template owner's counting. Each method is tied to the function
 that the step-by-step systems use.
 */
module Manager {
  import opened Wrappers
  import opened Control
  import Ledger

  datatype ReplyError = Closed | Refused | GuestExited | Unexpected

  /** The first message that is not a child's exit. */
  function FirstOther(channel: seq<Reply>): (k: nat)
    ensures k <= |channel|
    ensures forall i :: 0 <= i < k ==> channel[i] == Exited(ChildRun)
    ensures k < |channel| ==> channel[k] != Exited(ChildRun)
  {
    if channel == [] || channel[0] != Exited(ChildRun) then 0 else 1 + FirstOther(channel[1..])
  }

  function CloneExits(events: seq<Reply>): nat {
    if events == [] then 0
    else CloneExits(events[..|events| - 1]) + (if events[|events| - 1] == Exited(ChildRun) then 1 else 0)
  }

  lemma CloneExitsPush(events: seq<Reply>, e: Reply)
    ensures CloneExits(events + [e]) == CloneExits(events) + (if e == Exited(ChildRun) then 1 else 0)
  {
    assert (events + [e])[..|events|] == events;
  }

  /** A host process as its manager holds it; `channel` is what it will still say. */
  class HostProcess {
    var channel: seq<Reply>
    var events: seq<Reply>

    constructor (channel: seq<Reply>)
      ensures this.channel == channel && events == []
    {
      this.channel, this.events := channel, [];
    }

    /**
     The next message that is not a child's exit, the exits before it kept in
     order; nothing after it is touched.
     */
    method Reply() returns (r: Result<Reply, ReplyError>)
      modifies this
      ensures var k := FirstOther(old(channel));
              && events == old(events) + old(channel)[..k]
              && channel == old(channel)[if k < |old(channel)| then k + 1 else k..]
              && r == if k == |old(channel)| then Failure(Closed)
                      else if old(channel)[k] == Error then Failure(Refused)
                      else if old(channel)[k] == Exited(GuestRun) then Failure(GuestExited)
                      else Success(old(channel)[k])
    {
      ghost var taken: nat := 0;
      while channel != []
        invariant taken <= |old(channel)| && channel == old(channel)[taken..]
        invariant events == old(events) + old(channel)[..taken]
        invariant forall i :: 0 <= i < taken ==> old(channel)[i] == Exited(ChildRun)
        decreases |channel|
      {
        var message := channel[0];
        assert message == old(channel)[taken];
        channel := channel[1..];
        match message
        case Error => return Failure(Refused);
        case Exited(GuestRun) => return Failure(GuestExited);
        case Exited(ChildRun) =>
          events := events + [message];
          taken := taken + 1;
        case _ => return Success(message);
      }
      r := Failure(Closed);
    }

    /** One unprompted message: an exit of the guest or of a clone. */
    method ReadEvent() returns (r: Result<Reply, ReplyError>)
      modifies this
      ensures events == old(events)
      ensures old(channel) == [] ==> r == Failure(Closed) && channel == []
      ensures old(channel) != [] ==> channel == old(channel)[1..]
      ensures r.Success? <==> old(channel) != [] && old(channel)[0].Exited?
      ensures r.Success? ==> r.value == old(channel)[0]
    {
      if channel == [] {
        return Failure(Closed);
      }
      var message := channel[0];
      channel := channel[1..];
      match message
      case Error => r := Failure(Refused);
      case Exited(_) => r := Success(message);
      case _ => r := Failure(Unexpected);
    }

    /** Reads whatever has arrived and counts the clones' exits; `None` on anything else. */
    method DrainEvents() returns (exits: Option<nat>)
      modifies this
      ensures events == old(events)
      ensures exits.Some? <==> forall i :: 0 <= i < |old(channel)| ==> old(channel)[i].Exited?
      ensures exits.Some? ==> channel == [] && exits.value == CloneExits(old(channel))
    {
      var count := 0;
      ghost var taken: nat := 0;
      while channel != []
        invariant taken <= |old(channel)| && channel == old(channel)[taken..]
        invariant events == old(events)
        invariant forall i :: 0 <= i < taken ==> old(channel)[i].Exited?
        invariant count == CloneExits(old(channel)[..taken])
        decreases |channel|
      {
        ghost var next := old(channel)[taken];
        var event := ReadEvent();
        if event.Failure? {
          return None;
        }
        assert old(channel)[..taken + 1] == old(channel)[..taken] + [next];
        CloneExitsPush(old(channel)[..taken], next);
        if event.value == Exited(ChildRun) {
          count := count + 1;
        }
        taken := taken + 1;
      }
      assert old(channel)[..taken] == old(channel);
      exits := Some(count);
    }
  }

  /** The part of `serve_forks` that keeps the books. */
  class TemplateOwner {
    var children: nat
    var idleSince: nat
    var alive: bool

    constructor (now: nat)
      ensures children == 0 && idleSince == now && alive
    {
      children, idleSince, alive := 0, now, true;
    }

    /** A fork was served: count it, then the exits that arrived meanwhile; `x` is the ledger's account of it. */
    method Served(events: seq<Reply>, now: nat, ghost x: Ledger.Template)
      requires x.children == children && x.idleSince == idleSince && |x.events| == CloneExits(events)
      modifies this
      ensures children == Ledger.AfterFork(x, now).children && idleSince == Ledger.AfterFork(x, now).idleSince
      ensures children == Ledger.SaturatingSub(old(children) + 1, CloneExits(events))
      ensures idleSince == if children == 0 then now else old(idleSince)
      ensures alive == old(alive)
    {
      children := children + 1;
      for i := 0 to |events|
        invariant children == Ledger.SaturatingSub(old(children) + 1, CloneExits(events[..i]))
        invariant idleSince == old(idleSince) && alive == old(alive)
      {
        assert events[..i + 1] == events[..i] + [events[i]];
        CloneExitsPush(events[..i], events[i]);
        if events[i] == Exited(ChildRun) {
          children := Ledger.SaturatingSub(children, 1);
        }
      }
      assert events[..|events|] == events;
      if children == 0 {
        idleSince := now;
      }
    }

    /** No command for a while: subtract the drained exits and test for expiry, as the ledger does. */
    method TimedOut(exits: nat, now: nat, ttl: nat, ghost x: Ledger.Template) returns (expired: bool)
      requires x.children == children && x.idleSince == idleSince
      modifies this
      ensures children == Ledger.AfterDrain(x, exits, now).children && idleSince == Ledger.AfterDrain(x, exits, now).idleSince
      ensures expired <==> Ledger.Expired(Ledger.AfterDrain(x, exits, now), now, ttl)
      ensures children == Ledger.SaturatingSub(old(children), exits)
      ensures idleSince == if exits > 0 && children == 0 then now else old(idleSince)
      ensures expired <==> children == 0 && now - idleSince >= ttl
      ensures alive == (old(alive) && !expired)
    {
      if exits > 0 {
        children := Ledger.SaturatingSub(children, exits);
        if children == 0 {
          idleSince := now;
        }
      }
      expired := children == 0 && now - idleSince >= ttl;
      if expired {
        alive := false;
      }
    }
  }

  // ----- the same, step by step

  function Replies(sent: seq<Sent>): seq<Reply> {
    seq(|sent|, i requires 0 <= i < |sent| => sent[i].reply)
  }

  /** Reading one message at a time until the wait is over or nothing is left. */
  function Reads(l: Link): Link
    requires l.read <= |l.log|
    decreases |l.log| - l.read
  {
    if l.outstanding.None? || l.read == |l.log| then l else Reads(ReadOne(l))
  }

  lemma TakeOneMore(events: seq<Reply>, channel: seq<Reply>, k: nat)
    requires k < |channel|
    ensures events + [channel[0]] + channel[1..][..k] == events + channel[..k + 1]
  {
    assert channel[..k + 1] == [channel[0]] + channel[1..][..k];
  }

  /** The steps of the protocol's model, run to the end, are `Reply`. */
  lemma {:induction false} ReadsAreReply(l: Link)
    requires l.read <= |l.log| && l.outstanding.Some?
    ensures var channel := Replies(Inbox(l));
            var k := FirstOther(channel);
            && Reads(l).events == l.events + channel[..k]
            && Reads(l).read == l.read + (if k < |channel| then k + 1 else k)
            && (Reads(l).outstanding.None? <==> k < |channel|)
    decreases |l.log| - l.read
  {
    var channel := Replies(Inbox(l));
    if l.read < |l.log| {
      var l' := ReadOne(l);
      assert channel[0] == l.log[l.read].reply;
      assert Replies(Inbox(l')) == channel[1..];
      hide Replies, Inbox;
      if Judge(channel[0]) == Event {
        ReadsAreReply(l');
        TakeOneMore(l.events, channel, FirstOther(channel[1..]));
      }
    }
  }
}
