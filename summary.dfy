/** The pure helpers of the manager summary in app/main.py: escalation,
    display names, the per-section split and the body cap. */
module Summary {
  import opened Base
  import opened BusinessClock
  import opened Issues
  import opened Phones

  /** Escalation threshold: 24 business hours. */
  const EscalateAfter: int := 24 * HourLength
  /** The body cap of `send_summary`. */
  const BodyCap: nat := 1450

  /** The instant `_is_escalated` counts from: the first inbound time of an
      SMS issue when that column is truthy, the creation time otherwise. */
  function EscalationAnchor(kind: Kind, first: Stamp, createdTs: int): (r: Stamp)
    ensures kind == Sms && first != NoStamp ==> r == first
    ensures kind == Call || first == NoStamp ==> r == At(createdTs)
  {
    if kind == Sms && first != NoStamp then first else At(createdTs)
  }

  /** `_is_escalated`: false when the anchor does not parse, otherwise
      whether `now` has reached 24 business hours after the anchor. */
  predicate IsEscalated(kind: Kind, first: Stamp, createdTs: int, now: int)
    ensures IsEscalated(kind, first, createdTs, now) ==>
              EscalationAnchor(kind, first, createdTs).At? && now >= EscalationAnchor(kind, first, createdTs).t
  {
    var anchor := EscalationAnchor(kind, first, createdTs);
    anchor.At? && now >= AddBusiness(anchor.t, EscalateAfter)
  }

  /** Once escalated, an issue stays escalated as time goes on. */
  lemma EscalationMonotone(kind: Kind, first: Stamp, createdTs: int, now: int, later: int)
    requires now <= later && IsEscalated(kind, first, createdTs, now)
    ensures IsEscalated(kind, first, createdTs, later)
  {
  }

  /** An unparseable first inbound time on an SMS issue never escalates. */
  lemma BadStampNeverEscalates(createdTs: int, now: int)
    ensures !IsEscalated(Sms, BadStamp, createdTs, now)
  {
  }

  /** An escalated issue written by this code is past its 2-hour due time:
      the 24-hour threshold is never earlier than the due time. */
  lemma EscalatedIsOverdue(x: Issue, now: int)
    requires WellFormed(x) && IsEscalated(x.kind, x.firstInboundTs, x.createdTs, now)
    ensures now >= x.dueTs
  {
    AddBusinessMonotone(x.createdTs, SlaSeconds, EscalateAfter);
  }

  /** `_display_name`: the stripped contact name when there is one, the
      short phone otherwise. Never empty. */
  function DisplayName(x: Issue): (r: string)
    ensures Strip(ContactNameText(x.meta)) != "" ==> r == Strip(ContactNameText(x.meta))
    ensures Strip(ContactNameText(x.meta)) == "" ==> r == ShortPhone(x.phone)
    ensures r != ""
  {
    var name := Strip(ContactNameText(x.meta));
    if name != "" then name else ShortPhone(x.phone)
  }

  /** One marker line of a summary section. Times are kept as instants;
      their `strftime` rendering is not modelled. `lastInbound` is the last
      inbound column, or the creation time when that column is falsy. */
  datatype Marker = Marker(id: nat, who: string, lastInbound: Stamp, due: int, inbound: Option<nat>)

  function MarkerOf(x: Issue): (m: Marker)
    ensures m.id == x.id && m.who == DisplayName(x) && m.due == x.dueTs
    ensures m.inbound.Some? <==> x.kind == Sms
  {
    var last := if x.lastInboundTs == NoStamp then At(x.createdTs) else x.lastInboundTs;
    Marker(x.id, DisplayName(x), last, x.dueTs, if x.kind == Sms then Some(x.inboundCount) else None)
  }

  predicate EscalatedRow(x: Issue, now: int) {
    IsEscalated(x.kind, x.firstInboundTs, x.createdTs, now)
  }

  /** The markers of the rows that are (`esc`) or are not escalated. */
  function Markers(rows: seq<Issue>, now: int, esc: bool): (r: seq<Marker>)
    ensures |r| <= |rows|
  {
    if rows == [] then []
    else
      var last := rows[|rows| - 1];
      Markers(rows[..|rows| - 1], now, esc) + (if EscalatedRow(last, now) == esc then [MarkerOf(last)] else [])
  }

  /** One more row adds its marker to the list it belongs to. */
  lemma MarkersStep(rows: seq<Issue>, i: nat, now: int)
    requires i < |rows|
    ensures var m := MarkerOf(rows[i]);
            && Markers(rows[..i + 1], now, false) == Markers(rows[..i], now, false)
                                                     + (if EscalatedRow(rows[i], now) then [] else [m])
            && Markers(rows[..i + 1], now, true) == Markers(rows[..i], now, true)
                                                    + (if EscalatedRow(rows[i], now) then [m] else [])
  {
    assert rows[..i + 1][..i] == rows[..i];
  }

  /** Every row lands in exactly one of the two lists. */
  lemma {:induction false} MarkersPartition(rows: seq<Issue>, now: int)
    ensures |Markers(rows, now, false)| + |Markers(rows, now, true)| == |rows|
  {
    if rows != [] {
      MarkersPartition(rows[..|rows| - 1], now);
    }
  }

  /** The header of a section: `title (count):`, or `title (0): none`. */
  datatype Header = Header(title: string, count: nat, none: bool)

  /** `_build_section_lines`: the first `maxItems` rows split into normal and
      escalated markers; the header counts every row. */
  method BuildSectionLines(rows: seq<Issue>, title: string, now: int, maxItems: nat)
    returns (header: Header, normal: seq<Marker>, escalated: seq<Marker>)
    ensures header == Header(title, |rows|, rows == [])
    ensures normal == Markers(FirstRows(rows, maxItems), now, false)
    ensures escalated == Markers(FirstRows(rows, maxItems), now, true)
  {
    var shown := FirstRows(rows, maxItems);
    normal := [];
    escalated := [];
    var i := 0;
    while i < |shown|
      invariant 0 <= i <= |shown|
      invariant normal == Markers(shown[..i], now, false)
      invariant escalated == Markers(shown[..i], now, true)
    {
      MarkersStep(shown, i, now);
      var r := shown[i];
      var marker := MarkerOf(r);
      if EscalatedRow(r, now) {
        escalated := escalated + [marker];
      } else {
        normal := normal + [marker];
      }
      i := i + 1;
    }
    assert shown[..i] == shown;
    header := Header(title, |rows|, rows == []);
  }

  /** `rows[:n]` */
  function FirstRows(rows: seq<Issue>, n: nat): (r: seq<Issue>)
    ensures |r| == if |rows| <= n then |rows| else n
    ensures r == rows[..|r|]
  {
    if |rows| <= n then rows else rows[..n]
  }

  /** A section shows at most `maxItems` markers and every shown row
      exactly once, as a normal or as an escalated marker. */
  lemma SectionShowsFirstRows(rows: seq<Issue>, now: int, maxItems: nat)
    ensures var shown := FirstRows(rows, maxItems);
            |Markers(shown, now, false)| + |Markers(shown, now, true)|
            == if |rows| <= maxItems then |rows| else maxItems
  {
    MarkersPartition(FirstRows(rows, maxItems), now);
  }

  /** The summary body cap: more than 1450 characters are cut to 1450 and
      "\n…" is appended. */
  function CapBody(body: string): (r: string)
    ensures |body| <= BodyCap ==> r == body
    ensures |body| > BodyCap ==> r == body[..BodyCap] + "\n\U{2026}"
  {
    if |body| > BodyCap then body[..BodyCap] + "\n\U{2026}" else body
  }

  /** A capped body is at most 1452 characters, begins like the body, and
      capping again changes nothing. */
  lemma CapBodyBounds(body: string)
    ensures |CapBody(body)| <= BodyCap + 2
    ensures var n := if |body| <= BodyCap then |body| else BodyCap;
            CapBody(body)[..n] == body[..n]
    ensures CapBody(CapBody(body)) == CapBody(body)
  {
    if |body| > BodyCap {
      var r := CapBody(body);
      assert r[..BodyCap] == body[..BodyCap];
    }
  }
}
