/** The per-issue decision of the poll resolver in app/main.py: scan the
    messages of one conversation, count the outbound ones and look for an
    outbound reply after the first inbound text. */
module PollResolver {
  import opened Base
  import opened Issues

  /** One message as returned by the messages API: its `direction` field
      (absent when missing or not a non-empty string) and its `dateAdded`
      instant (absent when missing, empty or not parseable). */
  datatype Message = Message(direction: Option<string>, dateAdded: Option<int>)

  /** `_msg_direction` */
  function Direction(m: Message): string {
    if m.direction.Some? then Lower(m.direction.value) else ""
  }

  predicate IsOutbound(m: Message) {
    Direction(m) == "outbound"
  }

  /** The number of outbound messages, whether or not their time parses. */
  function CountOutbound(msgs: seq<Message>): (n: nat)
    ensures n <= |msgs|
  {
    if msgs == [] then 0
    else CountOutbound(msgs[..|msgs| - 1]) + (if IsOutbound(msgs[|msgs| - 1]) then 1 else 0)
  }

  /** An outbound message with a parseable time strictly after `t`. */
  predicate RepliedAfter(m: Message, t: int) {
    IsOutbound(m) && m.dateAdded.Some? && m.dateAdded.value > t
  }

  /** The resolve condition: the first inbound time parses and some outbound
      message is strictly later. */
  predicate HasReplyAfter(msgs: seq<Message>, first: Stamp) {
    first.At? && exists i :: 0 <= i < |msgs| && RepliedAfter(msgs[i], first.t)
  }

  /** The message loop of `poll_resolver`. */
  method ScanMessages(msgs: seq<Message>, first: Stamp) returns (outCount: nat, outboundAfter: bool)
    ensures outCount == CountOutbound(msgs)
    ensures outboundAfter == HasReplyAfter(msgs, first)
  {
    outCount := 0;
    outboundAfter := false;
    var i := 0;
    while i < |msgs|
      invariant 0 <= i <= |msgs|
      invariant outCount == CountOutbound(msgs[..i])
      invariant outboundAfter == HasReplyAfter(msgs[..i], first)
    {
      CountOutboundStep(msgs, i);
      HasReplyAfterStep(msgs, first, i);
      var outbound, after := ScanMessage(msgs[i], first);
      if outbound {
        outCount := outCount + 1;
      }
      if after {
        outboundAfter := true;
      }
      i := i + 1;
    }
    assert msgs[..i] == msgs;
  }

  /** The body of the message loop for one message: whether it counts as
      outbound, and whether it is a reply after the first inbound time (a
      message whose time does not parse is skipped). */
  method ScanMessage(m: Message, first: Stamp) returns (outbound: bool, after: bool)
    ensures outbound == IsOutbound(m)
    ensures after == (first.At? && RepliedAfter(m, first.t))
  {
    var d := Direction(m);
    outbound := d == "outbound";
    after := false;
    if first.At? && d == "outbound" {
      if m.dateAdded.None? {
        return;
      }
      if m.dateAdded.value > first.t {
        after := true;
      }
    }
  }

  /** One more message adds one to the count when it is outbound. */
  lemma CountOutboundStep(msgs: seq<Message>, i: nat)
    requires i < |msgs|
    ensures CountOutbound(msgs[..i + 1]) == CountOutbound(msgs[..i]) + (if IsOutbound(msgs[i]) then 1 else 0)
  {
    assert msgs[..i + 1][..i] == msgs[..i];
  }

  /** One more message is a reply after the first inbound or leaves the
      answer as it was. */
  lemma HasReplyAfterStep(msgs: seq<Message>, first: Stamp, i: nat)
    requires i < |msgs|
    ensures HasReplyAfter(msgs[..i + 1], first)
            == (HasReplyAfter(msgs[..i], first) || (first.At? && RepliedAfter(msgs[i], first.t)))
  {
    var p := msgs[..i + 1];
    assert forall j :: 0 <= j < i ==> p[j] == msgs[..i][j];
    assert p[i] == msgs[i];
  }

  /** A reply after the first inbound is itself an outbound message. */
  lemma ReplyImpliesOutbound(msgs: seq<Message>, first: Stamp)
    requires HasReplyAfter(msgs, first)
    ensures CountOutbound(msgs) > 0
  {
    var i :| 0 <= i < |msgs| && RepliedAfter(msgs[i], first.t);
    CountOutboundPositive(msgs, i);
  }

  lemma {:induction false} CountOutboundPositive(msgs: seq<Message>, i: int)
    requires 0 <= i < |msgs| && IsOutbound(msgs[i])
    ensures CountOutbound(msgs) > 0
  {
    if i < |msgs| - 1 {
      CountOutboundPositive(msgs[..|msgs| - 1], i);
    }
  }

  /** Counting outbound messages adds up across two pages of messages. */
  lemma {:induction false} CountOutboundAppend(a: seq<Message>, b: seq<Message>)
    ensures CountOutbound(a + b) == CountOutbound(a) + CountOutbound(b)
    decreases |b|
  {
    if b == [] {
      assert a + b == a;
    } else {
      CountOutboundAppend(a, b[..|b| - 1]);
      assert (a + b)[..|a + b| - 1] == a + b[..|b| - 1];
    }
  }

  /** A reply after a later first-inbound time is also a reply after an
      earlier one. */
  lemma ReplyAfterEarlier(msgs: seq<Message>, t1: int, t2: int)
    requires t1 <= t2 && HasReplyAfter(msgs, At(t2))
    ensures HasReplyAfter(msgs, At(t1))
  {
    var i :| 0 <= i < |msgs| && RepliedAfter(msgs[i], t2);
    assert RepliedAfter(msgs[i], t1);
  }
}
