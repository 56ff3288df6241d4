/** The SQLite tables `issues` and `spam_phones` of app/main.py as one
    object, with the statements the webhooks, the resolve helpers, the note
    helper and the poll resolver run against them. */
module Store {
  import opened Base
  import opened BusinessClock
  import opened Issues
  import opened Phones
  import opened PollResolver

  /** `COALESCE(column, ?)`: only a NULL column takes the new value. */
  function Coalesce(column: Option<string>, value: Option<string>): Option<string> {
    if column.Some? then column else value
  }

  /** The `meta` of a newly inserted issue: the contact name when truthy. */
  function NewMeta(lastText: Option<string>, contactName: Option<string>): (m: Meta)
    ensures m.notes == [] && m.lastText == lastText
    ensures Present(contactName) ==> m.contactName == contactName
    ensures !Present(contactName) ==> m.contactName == None
  {
    Meta(if Present(contactName) then contactName else None, lastText, [])
  }

  /** The row `inbound_sms` inserts when no OPEN SMS issue matches. */
  function NewSms(id: nat, text: string, contactId: Option<string>, phone: Option<string>,
                  conversationId: Option<string>, contactName: Option<string>, now: int): (x: Issue)
    ensures WellFormed(x) && x.id == id && x.kind == Sms && x.status == Open
    ensures x.createdTs == now && x.dueTs == AddBusiness(now, SlaSeconds) && now <= x.dueTs
    ensures x.firstInboundTs == At(now) && x.lastInboundTs == At(now)
    ensures x.inboundCount == 1 && x.outboundCount == 0
    ensures x.contactId == contactId && x.phone == phone && x.conversationId == conversationId
    ensures x.meta.lastText == Some(Take(text, TextCap))
  {
    Issue(id, Sms, contactId, phone, now, AddBusiness(now, SlaSeconds), Open, None,
          NewMeta(Some(Take(text, TextCap)), contactName),
          At(now), At(now), 1, 0, conversationId)
  }

  /** The UPDATE `inbound_sms` runs on the matching OPEN SMS issue. */
  function Touched(x: Issue, text: string, contactId: Option<string>, phone: Option<string>,
                   conversationId: Option<string>, contactName: Option<string>, now: int): (y: Issue)
    ensures y.inboundCount == x.inboundCount + 1 && y.lastInboundTs == At(now)
    ensures y.id == x.id && y.kind == x.kind && y.status == x.status && y.resolvedTs == x.resolvedTs
    ensures y.createdTs == x.createdTs && y.dueTs == x.dueTs && y.firstInboundTs == x.firstInboundTs
    ensures y.outboundCount == x.outboundCount && y.meta.notes == x.meta.notes
    ensures x.contactId.Some? ==> y.contactId == x.contactId
    ensures x.phone.Some? ==> y.phone == x.phone
    ensures x.conversationId.Some? ==> y.conversationId == x.conversationId
    ensures y.meta.lastText == Some(Take(text, TextCap))
    ensures Present(x.meta.contactName) ==> y.meta.contactName == x.meta.contactName
  {
    var name := if Present(contactName) && !Present(x.meta.contactName) then contactName
                else x.meta.contactName;
    x.(inboundCount := x.inboundCount + 1,
       lastInboundTs := At(now),
       contactId := Coalesce(x.contactId, contactId),
       phone := Coalesce(x.phone, phone),
       conversationId := Coalesce(x.conversationId, conversationId),
       meta := x.meta.(lastText := Some(Take(text, TextCap)), contactName := name))
  }

  /** The row `unanswered_call` inserts: a CALL issue with no dedup, no
      inbound stamps and no conversation. */
  function NewCall(id: nat, contactId: Option<string>, phone: Option<string>,
                   contactName: Option<string>, now: int): (x: Issue)
    ensures WellFormed(x) && x.id == id && x.kind == Call && x.status == Open
    ensures x.createdTs == now && x.dueTs == AddBusiness(now, SlaSeconds)
    ensures x.contactId == contactId && x.phone == phone
  {
    Issue(id, Call, contactId, phone, now, AddBusiness(now, SlaSeconds), Open, None,
          NewMeta(None, contactName), NoStamp, NoStamp, 0, 0, None)
  }

  /** `_is_spam`: a falsy phone is never spam. */
  predicate IsSpam(spamPhones: set<string>, phone: Option<string>)
    ensures !Present(phone) ==> !IsSpam(spamPhones, phone)
    ensures IsSpam(spamPhones, phone) ==> phone.value in spamPhones
  {
    Present(phone) && phone.value in spamPhones
  }

  datatype CallOutcome = NotRouted | SpamCaller | CallCreated(id: nat)

  /** The rows the poll resolver visits: OPEN SMS issues whose
      `conversation_id` is not NULL. */
  predicate PollCandidate(x: Issue) {
    x.status == Open && x.kind == Sms && x.conversationId.Some?
  }

  /** One row after the poll resolver has looked at its messages. */
  function Polled(x: Issue, msgs: seq<Message>, now: int): (y: Issue)
    requires x.status == Open
    ensures y.outboundCount == CountOutbound(msgs)
    ensures HasReplyAfter(msgs, x.firstInboundTs) ==> y.status == Resolved && y.resolvedTs == Some(now)
    ensures !HasReplyAfter(msgs, x.firstInboundTs) ==> y.status == Open && y.resolvedTs == x.resolvedTs
    ensures !x.firstInboundTs.At? ==> y.status == Open
    ensures y.(outboundCount := x.outboundCount, status := x.status, resolvedTs := x.resolvedTs) == x
  {
    var counted := x.(outboundCount := CountOutbound(msgs));
    if HasReplyAfter(msgs, x.firstInboundTs) then Close(counted, Resolved, now) else counted
  }

  /** The polled row is the row with its new outbound count, closed as
      RESOLVED when there is a reply after the first inbound. */
  lemma PolledRow(x: Issue, msgs: seq<Message>, now: int)
    requires x.status == Open
    ensures var counted := x.(outboundCount := CountOutbound(msgs));
            Polled(x, msgs, now) == if HasReplyAfter(msgs, x.firstInboundTs) then Close(counted, Resolved, now)
                                    else counted
  {
  }

  /** `resolve_by_name` lower-cases the stripped name. */
  function NameNeedle(name: string): string {
    Lower(Strip(name))
  }

  /** The statement `resolve_target` ends up running: by phone when the
      stripped target normalises to a non-empty phone, by contact id when it
      looks like one, by name otherwise. */
  function TargetSelector(target: string): (r: Selector)
    ensures r.ByPhone? || r.ByContact? || r.ByName?
    ensures r.ByContact? ==> r.contactId == Strip(target) && LooksLikeContactId(r.contactId)
                             && forall i :: 0 <= i < |r.contactId| ==> !IsDigit(r.contactId[i])
  {
    var t := Strip(target);
    PhoneOfTarget(t);
    var phone := NormalizePhone(Some(t));
    if Present(phone) then ByPhone(phone.value)
    else if LooksLikeContactId(t) then ByContact(t)
    else ByName(NameNeedle(t))
  }

  /** Any text, blank or not: a normalised phone is present exactly when
      the text holds a digit or `+`. */
  lemma PhoneOfTarget(t: string)
    ensures Present(NormalizePhone(Some(t))) <==> HasDialChar(t)
  {
    if t != "" {
      PhonePresentIff(t);
    }
  }

  /** A target shaped like a contact id but holding a digit is resolved as a
      phone number (its digits), never as a contact id. */
  lemma ContactIdWithDigitIsPhone(target: string, i: int)
    requires LooksLikeContactId(Strip(target))
    requires 0 <= i < |Strip(target)| && IsDigit(Strip(target)[i])
    ensures TargetSelector(target).ByPhone?
  {
    assert IsDialChar(Strip(target)[i]);
    PhonePresentIff(Strip(target));
  }

  /** An all-letter contact id is resolved by contact id. */
  lemma LetterContactIdIsContact(target: string)
    requires LooksLikeContactId(Strip(target))
    requires forall i :: 0 <= i < |Strip(target)| ==> !IsDigit(Strip(target)[i])
    ensures TargetSelector(target) == ByContact(Strip(target))
  {
    PhonePresentIff(Strip(target));
  }

  /** The table invariant: ids below the AUTOINCREMENT counter and
      increasing along the table, well-formed rows, and at most one OPEN SMS
      issue per known conversation. */
  ghost predicate TableValid(issues: seq<Issue>, nextId: nat) {
    && nextId >= 1
    && (forall i :: 0 <= i < |issues| ==> 1 <= issues[i].id < nextId && WellFormed(issues[i]))
    && IdsIncreasing(issues)
    && OneOpenPerConversation(issues)
  }

  /** Appending a well-formed row with the next id keeps the invariant when
      it opens no second thread for a conversation. */
  lemma InsertKeepsValid(s: seq<Issue>, next: nat, x: Issue)
    requires TableValid(s, next) && x.id == next && WellFormed(x)
    requires OpenSmsThread(x) ==>
               forall j :: 0 <= j < |s| && OpenSmsThread(s[j]) ==> s[j].conversationId != x.conversationId
    ensures TableValid(s + [x], next + 1)
  {
    var r := s + [x];
    forall i, j | 0 <= i < j < |r| && OpenSmsThread(r[i]) && OpenSmsThread(r[j])
      ensures r[i].conversationId != r[j].conversationId
    {
      if j == |s| {
        assert r[i] == s[i];
      } else {
        assert r[i] == s[i] && r[j] == s[j];
      }
    }
  }

  /** Rewriting row `k` in place keeps the invariant when the row keeps its
      id and either keeps its thread or takes a conversation no other OPEN
      SMS issue has. */
  lemma RewriteKeepsValid(s: seq<Issue>, next: nat, k: int, y: Issue)
    requires TableValid(s, next) && 0 <= k < |s| && y.id == s[k].id && WellFormed(y)
    requires OpenSmsThread(y) ==>
               || (OpenSmsThread(s[k]) && y.conversationId == s[k].conversationId)
               || (forall j :: 0 <= j < |s| && OpenSmsThread(s[j]) ==> s[j].conversationId != y.conversationId)
    ensures TableValid(s[k := y], next)
  {
    var r := s[k := y];
    forall i, j | 0 <= i < j < |r| && OpenSmsThread(r[i]) && OpenSmsThread(r[j])
      ensures r[i].conversationId != r[j].conversationId
    {
      if i != k && j != k {
        assert r[i] == s[i] && r[j] == s[j];
      }
    }
  }

  /** The inbound UPDATE keeps a well-formed SMS row well-formed. */
  lemma TouchedWellFormed(x: Issue, text: string, contactId: Option<string>, phone: Option<string>,
                          conversationId: Option<string>, contactName: Option<string>, now: int)
    requires WellFormed(x) && x.kind == Sms
    ensures WellFormed(Touched(x, text, contactId, phone, conversationId, contactName, now))
  {
  }

  class IssueStore {
    /** The `issues` table in id order. */
    var issues: seq<Issue>
    /** The next AUTOINCREMENT id. */
    var nextId: nat
    /** The `spam_phones` table. */
    var spamPhones: set<string>

    ghost predicate Valid()
      reads this
    {
      TableValid(issues, nextId)
    }

    constructor ()
      ensures Valid() && issues == [] && nextId == 1 && spamPhones == {}
    {
      issues := [];
      nextId := 1;
      spamPhones := {};
    }

    /** `SELECT * FROM issues WHERE id=?` */
    function GetIssueById(id: nat): (r: Option<Issue>)
      reads this
      ensures r.Some? ==> r.value in issues && r.value.id == id
      ensures r.None? ==> forall i :: 0 <= i < |issues| ==> issues[i].id != id
    {
      var k := IndexOfId(issues, id);
      if k.Some? then Some(issues[k.value]) else None
    }

    /** `list_open_issues`: one page of the OPEN rows by due time, and the
        number of OPEN rows. */
    function ListOpenIssues(limit: nat, offset: nat): (r: (seq<Issue>, nat))
      reads this
      ensures |r.0| <= limit && SortedByDue(r.0)
      ensures forall x :: x in r.0 ==> x in issues && x.status == Open
      ensures r.1 == |FilterOpen(issues)|
      ensures |r.0| == 0 <==> offset >= r.1 || limit == 0
      ensures |r.0| == if offset >= r.1 then 0 else if offset + limit <= r.1 then limit else r.1 - offset
      ensures forall i :: 0 <= i < |r.0| ==> offset + i < |OpenByDue(issues)| && r.0[i] == OpenByDue(issues)[offset + i]
    {
      PageOfOpenByDue(issues, offset, limit);
      (Page(OpenByDue(issues), offset, limit), |FilterOpen(issues)|)
    }

    /** The customer part of `inbound_sms`: update the matching OPEN SMS
        issue (conversation first, then phone, newest first) or insert a new
        one. */
    method RecordCustomerSms(text: string, contactId: Option<string>, phone: Option<string>,
                             conversationId: Option<string>, contactName: Option<string>, now: int)
      returns (id: nat, created: bool)
      requires Valid()
      modifies this
      ensures Valid()
      ensures spamPhones == old(spamPhones)
      ensures var t := DedupTarget(old(issues), conversationId, phone);
              t.Some? ==> && !created && nextId == old(nextId)
                          && id == old(issues)[t.value].id
                          && issues == old(issues)[t.value := Touched(old(issues)[t.value], text, contactId,
                                                                      phone, conversationId, contactName, now)]
      ensures var t := DedupTarget(old(issues), conversationId, phone);
              t.None? ==> && created && id == old(nextId) && nextId == old(nextId) + 1
                          && issues == old(issues) + [NewSms(id, text, contactId, phone, conversationId,
                                                             contactName, now)]
    {
      var due := AddBusinessHours(now, SlaSeconds);
      var target := DedupTarget(issues, conversationId, phone);
      if target.None? {
        id := nextId;
        var x := NewSms(id, text, contactId, phone, conversationId, contactName, now);
        assert x.dueTs == due;
        InsertKeepsValid(issues, nextId, x);
        issues := issues + [x];
        nextId := nextId + 1;
        created := true;
      } else {
        var k := target.value;
        var x := issues[k];
        var y := Touched(x, text, contactId, phone, conversationId, contactName, now);
        TouchedWellFormed(x, text, contactId, phone, conversationId, contactName, now);
        if x.conversationId.None? && Present(conversationId) {
          forall j | 0 <= j < |issues| && OpenSmsThread(issues[j])
            ensures issues[j].conversationId != y.conversationId
          {
            assert !DedupMatch(issues[j], ConvKey(conversationId.value));
          }
        }
        RewriteKeepsValid(issues, nextId, k, y);
        issues := issues[k := y];
        id := x.id;
        created := false;
      }
    }

    /** `unanswered_call` after the route check: a CALL issue for every
        routed call whose phone is not on the spam list. */
    method UnansweredCall(routed: bool, contactId: Option<string>, phone: Option<string>,
                          contactName: Option<string>, now: int)
      returns (outcome: CallOutcome)
      requires Valid()
      modifies this
      ensures Valid()
      ensures spamPhones == old(spamPhones)
      ensures !routed ==> outcome == NotRouted && issues == old(issues) && nextId == old(nextId)
      ensures routed && IsSpam(spamPhones, phone) ==>
                outcome == SpamCaller && issues == old(issues) && nextId == old(nextId)
      ensures routed && !IsSpam(spamPhones, phone) ==>
                && outcome == CallCreated(old(nextId)) && nextId == old(nextId) + 1
                && issues == old(issues) + [NewCall(old(nextId), contactId, phone, contactName, now)]
    {
      if !routed {
        return NotRouted;
      }
      if IsSpam(spamPhones, phone) {
        return SpamCaller;
      }
      var due := AddBusinessHours(now, SlaSeconds);
      var x := NewCall(nextId, contactId, phone, contactName, now);
      assert x.dueTs == due;
      issues := issues + [x];
      outcome := CallCreated(nextId);
      nextId := nextId + 1;
    }

    /** `mark_spam`: INSERT OR IGNORE into the spam list. */
    method MarkSpam(phone: string)
      requires Valid()
      modifies this
      ensures Valid()
      ensures spamPhones == old(spamPhones) + {phone}
      ensures issues == old(issues) && nextId == old(nextId)
    {
      spamPhones := spamPhones + {phone};
    }

    /** `UPDATE issues SET status=?, resolved_ts=? WHERE status='OPEN' AND
        <sel>`, returning the row count. */
    method CloseOpen(sel: Selector, status: ClosedStatus, now: int) returns (n: nat)
      requires Valid()
      modifies this
      ensures Valid()
      ensures issues == CloseWhere(old(issues), sel, status, now)
      ensures n == CountWhere(old(issues), sel)
      ensures spamPhones == old(spamPhones) && nextId == old(nextId)
    {
      CloseWhereKeepsInvariants(issues, sel, status, now);
      n := CountWhere(issues, sel);
      issues := CloseWhere(issues, sel, status, now);
    }

    /** `resolve_by_id`: closes the row with that id if it is OPEN. */
    method ResolveById(id: nat, status: ClosedStatus, now: int) returns (n: nat)
      requires Valid()
      modifies this
      ensures Valid()
      ensures issues == CloseWhere(old(issues), ById(id), status, now)
      ensures n <= 1
      ensures n == 1 <==> exists i :: 0 <= i < |old(issues)| && old(issues)[i].id == id && old(issues)[i].status == Open
      ensures spamPhones == old(spamPhones) && nextId == old(nextId)
    {
      CountByIdAtMostOne(issues, id);
      n := CloseOpen(ById(id), status, now);
    }

    /** `resolve_by_phone` */
    method ResolveByPhone(phone: string, status: ClosedStatus, now: int) returns (n: nat)
      requires Valid()
      modifies this
      ensures Valid()
      ensures issues == CloseWhere(old(issues), ByPhone(phone), status, now)
      ensures n == CountWhere(old(issues), ByPhone(phone))
      ensures spamPhones == old(spamPhones) && nextId == old(nextId)
    {
      n := CloseOpen(ByPhone(phone), status, now);
    }

    /** `resolve_by_contact_id` */
    method ResolveByContactId(contactId: string, status: ClosedStatus, now: int) returns (n: nat)
      requires Valid()
      modifies this
      ensures Valid()
      ensures issues == CloseWhere(old(issues), ByContact(contactId), status, now)
      ensures n == CountWhere(old(issues), ByContact(contactId))
      ensures spamPhones == old(spamPhones) && nextId == old(nextId)
    {
      n := CloseOpen(ByContact(contactId), status, now);
    }

    /** The scan of `resolve_by_name` over `SELECT id, meta FROM issues
        WHERE status='OPEN'`: the ids whose lower-cased contact name
        contains the needle, in table order. */
    method MatchingNameIds(needle: string) returns (matched: seq<nat>)
      ensures |matched| == CountWhere(issues, ByName(needle))
      ensures forall id :: id in matched <==>
                exists k :: 0 <= k < |issues| && issues[k].id == id && Closes(issues[k], ByName(needle))
    {
      var s := issues;
      matched := [];
      var i := 0;
      while i < |s|
        invariant 0 <= i <= |s|
        invariant |matched| == CountWhere(s[..i], ByName(needle))
        invariant forall id :: id in matched <==>
                    exists k :: 0 <= k < i && s[k].id == id && Closes(s[k], ByName(needle))
      {
        assert s[..i + 1][..i] == s[..i];
        var x := s[i];
        if x.status == Open {
          var cn := Lower(ContactNameText(x.meta));
          if needle != "" && cn != "" && Contains(cn, needle) {
            matched := matched + [x.id];
          }
        }
        i := i + 1;
      }
      assert s[..i] == s;
    }

    /** The final `UPDATE ... WHERE id IN (...)` of `resolve_by_name`,
        without a status guard. When the ids are those of the rows `sel`
        closes, it is the guarded close by `sel`. */
    method UpdateIds(ids: set<nat>, ghost sel: Selector, status: ClosedStatus, now: int)
      requires Valid()
      requires forall id :: id in ids <==> exists k :: 0 <= k < |issues| && issues[k].id == id && Closes(issues[k], sel)
      modifies this
      ensures Valid()
      ensures issues == SetWhereIds(old(issues), ids, status, now)
      ensures issues == CloseWhere(old(issues), sel, status, now)
      ensures spamPhones == old(spamPhones) && nextId == old(nextId)
    {
      UnguardedIdsCloseSame(issues, sel, ids, status, now);
      CloseWhereKeepsInvariants(issues, sel, status, now);
      issues := SetWhereIds(issues, ids, status, now);
    }

    /** `resolve_by_name`: collect the ids of OPEN rows whose lower-cased
        contact name contains the needle, then close exactly those rows. */
    method ResolveByName(name: string, status: ClosedStatus, now: int) returns (n: nat)
      requires Valid()
      modifies this
      ensures Valid()
      ensures issues == CloseWhere(old(issues), ByName(NameNeedle(name)), status, now)
      ensures n == CountWhere(old(issues), ByName(NameNeedle(name)))
      ensures spamPhones == old(spamPhones) && nextId == old(nextId)
    {
      var needle := NameNeedle(name);
      if needle == "" {
        EmptyNameSelectsNone(issues, status, now);
        return 0;
      }
      var matched := MatchingNameIds(needle);
      var ids := set id | id in matched;
      if matched != [] {
        UpdateIds(ids, ByName(needle), status, now);
      } else {
        CloseWhereNone(issues, ByName(needle), status, now);
      }
      n := |matched|;
    }

    /** `resolve_target`: phone, then contact id, then name; always with
        status RESOLVED. */
    method ResolveTarget(target: string, now: int) returns (n: nat)
      requires Valid()
      modifies this
      ensures Valid()
      ensures issues == CloseWhere(old(issues), TargetSelector(target), Resolved, now)
      ensures n == CountWhere(old(issues), TargetSelector(target))
      ensures spamPhones == old(spamPhones) && nextId == old(nextId)
    {
      var t := Strip(target);
      var phone := NormalizePhone(Some(t));
      assert TargetSelector(target) == if Present(phone) then ByPhone(phone.value)
                                        else if LooksLikeContactId(t) then ByContact(t)
                                        else ByName(NameNeedle(t));
      if Present(phone) {
        n := ResolveByPhone(phone.value, Resolved, now);
      } else if LooksLikeContactId(t) {
        n := ResolveByContactId(t, Resolved, now);
      } else {
        n := ResolveByName(t, Resolved, now);
      }
    }

    /** `add_note`: append a timestamped note (text cut to 500 characters)
        to any issue with that id, whatever its status. */
    method AddNote(id: nat, note: string, now: int) returns (ok: bool)
      requires Valid()
      modifies this
      ensures Valid()
      ensures ok <==> exists i :: 0 <= i < |old(issues)| && old(issues)[i].id == id
      ensures !ok ==> issues == old(issues)
      ensures ok ==> var k := IndexOfId(old(issues), id).value;
                     issues == old(issues)[k := old(issues)[k].(meta := old(issues)[k].meta.(
                                notes := old(issues)[k].meta.notes + [Note(now, Take(note, TextCap))]))]
      ensures spamPhones == old(spamPhones) && nextId == old(nextId)
    {
      var k := IndexOfId(issues, id);
      if k.None? {
        return false;
      }
      var x := issues[k.value];
      var y := x.(meta := x.meta.(notes := x.meta.notes + [Note(now, Take(note, TextCap))]));
      ReplaceKeepsInvariants(issues, k.value, y);
      issues := issues[k.value := y];
      ok := true;
    }

    /** The per-issue step of `poll_resolver` for one candidate row, given
        the messages fetched for its conversation: write the outbound count
        when it changed, and resolve when an outbound reply came after the
        first inbound text. A row with an empty conversation id is skipped. */
    method PollIssue(id: nat, msgs: seq<Message>, now: int) returns (resolved: bool, countUpdated: bool)
      requires Valid()
      requires IndexOfId(issues, id).Some? && PollCandidate(issues[IndexOfId(issues, id).value])
      modifies this
      ensures Valid()
      ensures var k := IndexOfId(old(issues), id).value;
              var x := old(issues)[k];
              if x.conversationId.value == "" then
                issues == old(issues) && !resolved && !countUpdated
              else
                && issues == old(issues)[k := Polled(x, msgs, now)]
                && resolved == HasReplyAfter(msgs, x.firstInboundTs)
                && countUpdated == (CountOutbound(msgs) != x.outboundCount)
      ensures spamPhones == old(spamPhones) && nextId == old(nextId)
    {
      var k := IndexOfId(issues, id).value;
      var x := issues[k];
      if x.conversationId.value == "" {
        return false, false;
      }
      var outCount, outboundAfter := ScanMessages(msgs, x.firstInboundTs);
      countUpdated := outCount != x.outboundCount;
      if countUpdated {
        WriteOutboundCount(k, outCount);
      } else {
        assert x.(outboundCount := outCount) == x;
      }
      var y := x.(outboundCount := outCount);
      assert issues == old(issues)[k := y];
      PolledRow(x, msgs, now);
      resolved := outboundAfter;
      if outboundAfter {
        ResolveRowAt(k, now);
      }
    }

    /** The resolve of the poll resolver on the OPEN row at `k`:
        `UPDATE issues SET status='RESOLVED', resolved_ts=? WHERE id=? AND
        status='OPEN'`. */
    method ResolveRowAt(k: nat, now: int)
      requires Valid() && k < |issues| && issues[k].status == Open
      modifies this
      ensures Valid()
      ensures issues == old(issues)[k := Close(old(issues)[k], Resolved, now)]
      ensures spamPhones == old(spamPhones) && nextId == old(nextId)
    {
      CloseWhereById(issues, k, Resolved, now);
      var changed := CloseOpen(ById(issues[k].id), Resolved, now);
    }

    /** `UPDATE issues SET outbound_count=? WHERE id=?` on the row at `k`. */
    method WriteOutboundCount(k: nat, count: nat)
      requires Valid() && k < |issues|
      modifies this
      ensures Valid()
      ensures issues == old(issues)[k := old(issues)[k].(outboundCount := count)]
      ensures spamPhones == old(spamPhones) && nextId == old(nextId)
    {
      var y := issues[k].(outboundCount := count);
      ReplaceKeepsInvariants(issues, k, y);
      issues := issues[k := y];
    }
  }

  /** Two texts on the same conversation make one issue: the second one
      counts as a second inbound and keeps the first deadline. */
  method SameConversationScenario(now: int, later: int)
  {
    var store := new IssueStore();
    var conv := Some("c1");
    var id1, created1 := store.RecordCustomerSms("hello", Some("k1"), Some("+15551234567"), conv, None, now);
    assert store.issues[0].conversationId == conv;
    var id2, created2 := store.RecordCustomerSms("again", Some("k1"), Some("+15551234567"), conv, None, later);
    assert created1 && !created2 && id1 == id2 == 1;
    assert |store.issues| == 1;
    assert store.issues[0].inboundCount == 2;
    assert store.issues[0].dueTs == AddBusiness(now, SlaSeconds);
    assert store.issues[0].lastInboundTs == At(later);
  }

  /** A text after the issue was resolved opens a new issue. */
  method TextAfterResolveScenario(now: int)
  {
    var store := new IssueStore();
    var conv := Some("c1");
    var id1, _ := store.RecordCustomerSms("hello", None, Some("+15551234567"), conv, None, now);
    assert store.issues[0].id == id1 && store.issues[0].status == Open;
    var n := store.ResolveById(id1, Resolved, now);
    assert n == 1;
    var id2, created := store.RecordCustomerSms("still there?", None, Some("+15551234567"), conv, None, now);
    assert created && id2 == 2 && |store.issues| == 2;
    assert store.issues[0].status == Resolved && store.issues[1].status == Open;
  }

  /** A missed call from a phone on the spam list opens no issue. */
  method SpamCallerScenario(now: int)
  {
    var store := new IssueStore();
    store.MarkSpam("+15551234567");
    var outcome := store.UnansweredCall(true, None, Some("+15551234567"), None, now);
    assert outcome == SpamCaller && store.issues == [];
    var other := store.UnansweredCall(true, None, Some("+15559876543"), None, now);
    assert other == CallCreated(1) && |store.issues| == 1;
  }
}
