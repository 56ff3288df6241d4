/** The two ingesting webhooks of app/main.py once the payload is parsed:
    `inbound_sms` and `unanswered_call`. Results of calls to the CRM's HTTP
    API (a contact's name, the conversation of a contact) arrive as
    parameters. */
module Webhooks {
  import opened Base
  import opened Issues
  import opened Payload
  import opened Store
  import opened Commands

  /** The contact name from the payload, else the one fetched from the CRM
      (absent when that call failed). */
  function ContactNameOf(p: Json, fetchedName: Option<string>): (r: Option<string>)
    requires p.JObject?
    ensures Present(ExtractContactName(p)) ==> r == ExtractContactName(p)
    ensures !Present(ExtractContactName(p)) ==> r == fetchedName
  {
    var name := ExtractContactName(p);
    if Present(name) then name else fetchedName
  }

  /** `unanswered_call`: only a call routed to "tech_sentinel" from a phone
      not on the spam list opens a CALL issue. */
  method UnansweredCallEvent(store: IssueStore, p: Json, fetchedName: Option<string>, now: int)
    returns (outcome: CallOutcome)
    requires store.Valid() && p.JObject?
    modifies store
    ensures store.Valid()
    ensures !RoutedToSentinel(p) ==>
              outcome == NotRouted && store.issues == old(store.issues) && store.nextId == old(store.nextId)
    ensures RoutedToSentinel(p) && IsSpam(store.spamPhones, ExtractFromPhone(p)) ==>
              outcome == SpamCaller && store.issues == old(store.issues) && store.nextId == old(store.nextId)
    ensures RoutedToSentinel(p) && !IsSpam(old(store.spamPhones), ExtractFromPhone(p)) ==>
              && outcome == CallCreated(old(store.nextId)) && store.nextId == old(store.nextId) + 1
              && store.issues == old(store.issues) + [NewCall(old(store.nextId), ExtractContactId(p), ExtractFromPhone(p),
                                                             ContactNameOf(p, fetchedName), now)]
    ensures store.spamPhones == old(store.spamPhones)
  {
    var routed := RoutedToSentinel(p);
    var contactId := ExtractContactId(p);
    var phone := ExtractFromPhone(p);
    var name := ContactNameOf(p, fetchedName);
    outcome := store.UnansweredCall(routed, contactId, phone, name, now);
  }

  /** `inbound_sms`: the payload's fields feed the command desk (for
      internal senders) or the issue store (for customers). */
  method InboundSmsEvent(desk: CommandDesk, store: IssueStore, p: Json, fetchedName: Option<string>,
                         conversationId: Option<string>, now: int)
    returns (outcome: SmsOutcome)
    requires store.Valid() && p.JObject?
    modifies desk, store
    ensures store.Valid()
    ensures ExtractDirection(p) in {"outbound", "outgoing"} ==>
              outcome == IgnoredOutbound && unchanged(desk) && unchanged(store)
    ensures ExtractDirection(p) !in {"outbound", "outgoing"} && ExtractContactType(p) == Some("internal") ==>
              var e := desk.HandleEffect(old(store.issues), old(store.spamPhones), old(desk.offsets), ExtractText(p),
                                         ExtractContactId(p), now);
              && store.issues == e.1 && store.spamPhones == e.2 && desk.offsets == e.3
              && store.nextId == old(store.nextId)
              && outcome == if e.0.Answered? && e.0.ok && e.0.text != "" && Present(ExtractContactId(p)) then Commanded(e.0)
                            else InternalNonCommand
    ensures ExtractDirection(p) !in {"outbound", "outgoing"} && ExtractContactType(p) == Some("internal")
            && !Tokenize(ExtractText(p)).Command? ==>
              outcome == InternalNonCommand && unchanged(desk) && unchanged(store)
    ensures ExtractDirection(p) !in {"outbound", "outgoing"} && ExtractContactType(p) != Some("internal") ==>
              var t := DedupTarget(old(store.issues), conversationId, ExtractFromPhone(p));
              var name := ContactNameOf(p, fetchedName);
              && outcome.Recorded?
              && (outcome.created <==> t.None?)
              && unchanged(desk) && store.spamPhones == old(store.spamPhones)
              && (t.Some? ==>
                    && outcome.id == old(store.issues)[t.value].id && store.nextId == old(store.nextId)
                    && store.issues == old(store.issues)[t.value := Touched(old(store.issues)[t.value], ExtractText(p),
                                         ExtractContactId(p), ExtractFromPhone(p), conversationId, name, now)])
              && (t.None? ==>
                    && outcome.id == old(store.nextId) && store.nextId == old(store.nextId) + 1
                    && store.issues == old(store.issues) + [NewSms(old(store.nextId), ExtractText(p), ExtractContactId(p),
                                                                   ExtractFromPhone(p), conversationId, name, now)])
    ensures outcome.Commanded? ==> ExtractContactType(p) == Some("internal") && Present(ExtractContactId(p))
  {
    outcome := desk.InboundSms(store, ExtractText(p), ExtractContactId(p), ExtractFromPhone(p),
                               ContactNameOf(p, fetchedName), ExtractDirection(p), ExtractContactType(p),
                               conversationId, now);
  }
}
