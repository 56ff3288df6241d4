/** The `issues` table of app/main.py as values: one `Issue` record per row,
    the row predicates its UPDATE statements use, and the ordering and paging
    of `list_open_issues`. */
module Issues {
  import opened Base
  import opened BusinessClock

  datatype Kind = Sms | Call

  /** The three statuses the code writes (`OPEN | RESOLVED | SPAM`). */
  datatype Status = Open | Resolved | Spam

  /** The statuses the resolve functions are called with. */
  type ClosedStatus = s: Status | s != Open witness Resolved

  /** A nullable timestamp column as the code reads it: NULL or "" (falsy),
      text that `fromisoformat` rejects, or a parsed local instant. */
  datatype Stamp = NoStamp | BadStamp | At(t: int)

  datatype Note = Note(ts: int, text: string)

  /** The parts of the `meta` JSON column the logic reads or writes. */
  datatype Meta = Meta(contactName: Option<string>, lastText: Option<string>, notes: seq<Note>)

  datatype Issue = Issue(
    id: nat,
    kind: Kind,
    contactId: Option<string>,
    phone: Option<string>,
    createdTs: int,
    dueTs: int,
    status: Status,
    resolvedTs: Option<int>,
    meta: Meta,
    firstInboundTs: Stamp,
    lastInboundTs: Stamp,
    inboundCount: nat,
    outboundCount: nat,
    conversationId: Option<string>)

  /** Both webhooks set `due_ts = add_business_hours(now, 2.0)`. */
  const SlaSeconds: int := 2 * HourLength
  /** `text[:500]` and `note[:500]` */
  const TextCap: nat := 500

  /** What every row written by this code satisfies. */
  predicate WellFormed(x: Issue) {
    && (x.status == Open <==> x.resolvedTs.None?)
    && x.dueTs == AddBusiness(x.createdTs, SlaSeconds)
    && (x.kind == Sms ==> x.firstInboundTs == At(x.createdTs) && x.inboundCount >= 1)
    && (x.kind == Call ==> x.firstInboundTs == NoStamp && x.lastInboundTs == NoStamp
                           && x.inboundCount == 0 && x.conversationId == None)
  }

  // ---------------------------------------------------------------------
  // Row selection for the resolve functions
  // ---------------------------------------------------------------------

  /** The WHERE clauses of `resolve_by_id`, `resolve_by_phone`,
      `resolve_by_contact_id`, and the name test of `resolve_by_name`
      (`needle` is the stripped, lower-cased name; an empty needle matches
      nothing, as the early `return 0` does). `ByIdIn` is a set of ids
      resolved one after the other by the manager commands. */
  datatype Selector =
    | ById(id: nat)
    | ByIdIn(ids: set<nat>)
    | ByPhone(phone: string)
    | ByContact(contactId: string)
    | ByName(needle: string)

  function ContactNameText(m: Meta): string {
    if m.contactName.Some? then m.contactName.value else ""
  }

  predicate Matches(x: Issue, sel: Selector) {
    match sel
    case ById(id) => x.id == id
    case ByIdIn(ids) => x.id in ids
    case ByPhone(p) => x.phone == Some(p)
    case ByContact(c) => x.contactId == Some(c)
    case ByName(n) =>
      var cn := Lower(ContactNameText(x.meta));
      n != "" && cn != "" && Contains(cn, n)
  }

  /** Every resolve statement also requires `status='OPEN'`. */
  predicate Closes(x: Issue, sel: Selector) {
    x.status == Open && Matches(x, sel)
  }

  function Close(x: Issue, status: ClosedStatus, now: int): (y: Issue)
    ensures y.status == status && y.resolvedTs == Some(now)
    ensures y == x.(status := status, resolvedTs := Some(now))
  {
    x.(status := status, resolvedTs := Some(now))
  }

  /** The table after `UPDATE issues SET status=?, resolved_ts=? WHERE
      status='OPEN' AND <sel>`. */
  function CloseWhere(s: seq<Issue>, sel: Selector, status: ClosedStatus, now: int): (r: seq<Issue>)
    ensures |r| == |s|
    ensures forall i :: 0 <= i < |s| ==>
              r[i] == if Closes(s[i], sel) then Close(s[i], status, now) else s[i]
  {
    seq(|s|, i requires 0 <= i < |s| => if Closes(s[i], sel) then Close(s[i], status, now) else s[i])
  }

  /** The table after `UPDATE issues SET status=?, resolved_ts=? WHERE id
      IN (...)`, which has no status guard: every row whose id is listed is
      closed, whatever its status. */
  function SetWhereIds(s: seq<Issue>, ids: set<nat>, status: ClosedStatus, now: int): (r: seq<Issue>)
    ensures |r| == |s|
    ensures forall i :: 0 <= i < |s| && s[i].id !in ids ==> r[i] == s[i]
    ensures forall i :: 0 <= i < |s| && s[i].id in ids ==> r[i].status == status && r[i].id == s[i].id
  {
    seq(|s|, i requires 0 <= i < |s| => if s[i].id in ids then Close(s[i], status, now) else s[i])
  }

  /** The `rowcount` of that UPDATE. */
  function CountWhere(s: seq<Issue>, sel: Selector): (n: nat)
    ensures n <= |s|
  {
    if s == [] then 0
    else CountWhere(s[..|s| - 1], sel) + (if Closes(s[|s| - 1], sel) then 1 else 0)
  }

  /** An UPDATE whose rowcount is zero leaves the table as it was. */
  lemma CloseWhereNone(s: seq<Issue>, sel: Selector, status: ClosedStatus, now: int)
    requires CountWhere(s, sel) == 0
    ensures CloseWhere(s, sel, status, now) == s
  {
    CountWhereZero(s, sel);
  }

  /** An empty name selects no row. */
  lemma EmptyNameSelectsNone(s: seq<Issue>, status: ClosedStatus, now: int)
    ensures CountWhere(s, ByName("")) == 0
    ensures CloseWhere(s, ByName(""), status, now) == s
  {
    CountWhereZero(s, ByName(""));
    CloseWhereNone(s, ByName(""), status, now);
  }

  lemma {:induction false} CountWhereZero(s: seq<Issue>, sel: Selector)
    ensures CountWhere(s, sel) == 0 <==> forall i :: 0 <= i < |s| ==> !Closes(s[i], sel)
  {
    if s != [] {
      CountWhereZero(s[..|s| - 1], sel);
      assert forall i :: 0 <= i < |s| - 1 ==> s[..|s| - 1][i] == s[i];
    }
  }

  predicate IdsIncreasing(s: seq<Issue>) {
    forall i, j :: 0 <= i < j < |s| ==> s[i].id < s[j].id
  }

  /** With unique ids, `resolve_by_id` changes at most one row. */
  lemma {:induction false} CountByIdAtMostOne(s: seq<Issue>, id: nat)
    requires IdsIncreasing(s)
    ensures CountWhere(s, ById(id)) <= 1
    ensures CountWhere(s, ById(id)) == 1 <==> exists i :: 0 <= i < |s| && s[i].id == id && s[i].status == Open
  {
    if s != [] {
      var init := s[..|s| - 1];
      assert IdsIncreasing(init);
      CountByIdAtMostOne(init, id);
      CountWhereZero(init, ById(id));
      if s[|s| - 1].id == id {
        assert forall i :: 0 <= i < |init| ==> init[i].id < id;
      }
    }
  }

  /** Closing one id after a set of ids closes the larger set. */
  lemma CloseWhereAddId(s: seq<Issue>, ids: set<nat>, id: nat, status: ClosedStatus, now: int)
    ensures CloseWhere(CloseWhere(s, ByIdIn(ids), status, now), ById(id), status, now)
            == CloseWhere(s, ByIdIn(ids + {id}), status, now)
  {
    var a := CloseWhere(CloseWhere(s, ByIdIn(ids), status, now), ById(id), status, now);
    var b := CloseWhere(s, ByIdIn(ids + {id}), status, now);
    assert forall i :: 0 <= i < |s| ==> a[i] == b[i];
  }

  /** Closing rows never touches a row that is not OPEN, never reopens a row
      and changes nothing but `status` and `resolved_ts`. */
  lemma CloseWhereOnlyCloses(s: seq<Issue>, sel: Selector, status: ClosedStatus, now: int, i: int)
    requires 0 <= i < |s|
    ensures s[i].status != Open ==> CloseWhere(s, sel, status, now)[i] == s[i]
    ensures CloseWhere(s, sel, status, now)[i].status == Open ==> CloseWhere(s, sel, status, now)[i] == s[i]
    ensures CloseWhere(s, sel, status, now)[i].(status := s[i].status, resolvedTs := s[i].resolvedTs) == s[i]
  {
  }

  /** Replacing one row by a well-formed row with the same id that is no
      more of an open SMS thread keeps the table's invariants. */
  lemma ReplaceKeepsInvariants(s: seq<Issue>, k: int, y: Issue)
    requires 0 <= k < |s| && y.id == s[k].id
    requires OpenSmsThread(y) ==> OpenSmsThread(s[k]) && y.conversationId == s[k].conversationId
    ensures IdsIncreasing(s) ==> IdsIncreasing(s[k := y])
    ensures OneOpenPerConversation(s) ==> OneOpenPerConversation(s[k := y])
  {
  }

  /** Closing rows keeps ids, well-formedness, the id order and the
      one-open-thread-per-conversation rule. */
  lemma CloseWhereKeepsInvariants(s: seq<Issue>, sel: Selector, status: ClosedStatus, now: int)
    ensures var r := CloseWhere(s, sel, status, now);
            && (forall i :: 0 <= i < |s| ==> r[i].id == s[i].id)
            && (forall i :: 0 <= i < |s| && WellFormed(s[i]) ==> WellFormed(r[i]))
            && (IdsIncreasing(s) ==> IdsIncreasing(r))
            && (OneOpenPerConversation(s) ==> OneOpenPerConversation(r))
  {
    var r := CloseWhere(s, sel, status, now);
    assert forall i :: 0 <= i < |s| && OpenSmsThread(r[i]) ==> r[i] == s[i];
  }

  /** With unique ids, closing the set of ids of the rows a selector closes
      is closing by that selector. */
  lemma SelectedIdsCloseSame(s: seq<Issue>, sel: Selector, ids: set<nat>, status: ClosedStatus, now: int)
    requires IdsIncreasing(s)
    requires forall id :: id in ids <==> exists k :: 0 <= k < |s| && s[k].id == id && Closes(s[k], sel)
    ensures CloseWhere(s, ByIdIn(ids), status, now) == CloseWhere(s, sel, status, now)
    ensures CountWhere(s, ByIdIn(ids)) == CountWhere(s, sel)
  {
    forall k | 0 <= k < |s|
      ensures Closes(s[k], ByIdIn(ids)) == Closes(s[k], sel)
    {
      if Closes(s[k], ByIdIn(ids)) {
        var k' :| 0 <= k' < |s| && s[k'].id == s[k].id && Closes(s[k'], sel);
        assert k' == k;
      }
    }
    CountWhereSame(s, ByIdIn(ids), sel);
  }

  /** With unique ids, the unguarded update of the ids of the rows a
      selector closes is the guarded close by that selector: every listed
      row is OPEN and matches. */
  lemma UnguardedIdsCloseSame(s: seq<Issue>, sel: Selector, ids: set<nat>, status: ClosedStatus, now: int)
    requires IdsIncreasing(s)
    requires forall id :: id in ids <==> exists k :: 0 <= k < |s| && s[k].id == id && Closes(s[k], sel)
    ensures SetWhereIds(s, ids, status, now) == CloseWhere(s, sel, status, now)
  {
    forall k | 0 <= k < |s|
      ensures (s[k].id in ids) == Closes(s[k], sel)
    {
      if s[k].id in ids {
        var k' :| 0 <= k' < |s| && s[k'].id == s[k].id && Closes(s[k'], sel);
        assert k' == k;
      }
    }
  }

  lemma {:induction false} CountWhereSame(s: seq<Issue>, a: Selector, b: Selector)
    requires forall k :: 0 <= k < |s| ==> Closes(s[k], a) == Closes(s[k], b)
    ensures CountWhere(s, a) == CountWhere(s, b)
  {
    if s != [] {
      CountWhereSame(s[..|s| - 1], a, b);
    }
  }

  /** With unique ids, closing by one id closes that one row. */
  lemma CloseWhereById(s: seq<Issue>, k: int, status: ClosedStatus, now: int)
    requires IdsIncreasing(s) && 0 <= k < |s|
    ensures CloseWhere(s, ById(s[k].id), status, now)
            == s[k := if s[k].status == Open then Close(s[k], status, now) else s[k]]
  {
  }

  // ---------------------------------------------------------------------
  // Dedup lookups of the inbound-SMS webhook
  // ---------------------------------------------------------------------

  /** `SELECT * FROM issues WHERE status='OPEN' AND issue_type='SMS' AND
      conversation_id=?` (ConvKey) or `... AND phone=?` (PhoneKey). */
  datatype DedupKey = ConvKey(conversationId: string) | PhoneKey(phone: string)

  predicate DedupMatch(x: Issue, key: DedupKey) {
    x.status == Open && x.kind == Sms &&
    match key
    case ConvKey(c) => x.conversationId == Some(c)
    case PhoneKey(p) => x.phone == Some(p)
  }

  /** `ORDER BY id DESC LIMIT 1`: ids grow along the table, so the matching
      row with the highest id is the last matching row. */
  function LatestMatch(s: seq<Issue>, key: DedupKey): (r: Option<nat>)
    ensures r.Some? ==> r.value < |s| && DedupMatch(s[r.value], key)
    ensures r.Some? ==> forall j :: r.value < j < |s| ==> !DedupMatch(s[j], key)
    ensures r.None? ==> forall j :: 0 <= j < |s| ==> !DedupMatch(s[j], key)
  {
    if s == [] then None
    else if DedupMatch(s[|s| - 1], key) then Some(|s| - 1)
    else LatestMatch(s[..|s| - 1], key)
  }

  lemma LatestMatchHasHighestId(s: seq<Issue>, key: DedupKey, j: int)
    requires IdsIncreasing(s) && LatestMatch(s, key).Some?
    requires 0 <= j < |s| && DedupMatch(s[j], key)
    ensures s[j].id <= s[LatestMatch(s, key).value].id
  {
  }

  /** The row the webhook updates: by conversation id when one is known and
      matches, otherwise by phone when one is known. */
  function DedupTarget(s: seq<Issue>, conversationId: Option<string>, phone: Option<string>): (r: Option<nat>)
    ensures r.Some? ==> r.value < |s| && s[r.value].status == Open && s[r.value].kind == Sms
    ensures r.Some? ==> || (Present(conversationId) && DedupMatch(s[r.value], ConvKey(conversationId.value)))
                        || (Present(phone) && DedupMatch(s[r.value], PhoneKey(phone.value)))
    ensures r.Some? && Present(conversationId) && s[r.value].conversationId != conversationId ==>
              forall j :: 0 <= j < |s| ==> !DedupMatch(s[j], ConvKey(conversationId.value))
    ensures r.None? ==> forall j :: 0 <= j < |s| && s[j].status == Open && s[j].kind == Sms ==>
              (Present(conversationId) ==> s[j].conversationId != conversationId)
              && (Present(phone) ==> s[j].phone != phone)
  {
    var byConversation := if Present(conversationId) then LatestMatch(s, ConvKey(conversationId.value)) else None;
    if byConversation.Some? then byConversation
    else if Present(phone) then LatestMatch(s, PhoneKey(phone.value))
    else None
  }

  /** The webhook updates the newest OPEN SMS issue of the conversation
      when there is one, and otherwise the newest OPEN SMS issue of the
      phone: no matching row of the chosen key has a higher id. */
  lemma DedupTargetIsNewest(s: seq<Issue>, conversationId: Option<string>, phone: Option<string>, j: int)
    requires IdsIncreasing(s) && 0 <= j < |s|
    ensures var r := DedupTarget(s, conversationId, phone);
            Present(conversationId) && DedupMatch(s[j], ConvKey(conversationId.value)) ==>
              r.Some? && DedupMatch(s[r.value], ConvKey(conversationId.value)) && s[j].id <= s[r.value].id
    ensures var r := DedupTarget(s, conversationId, phone);
            && Present(phone) && DedupMatch(s[j], PhoneKey(phone.value))
            && (Present(conversationId) ==> forall i :: 0 <= i < |s| ==> !DedupMatch(s[i], ConvKey(conversationId.value)))
            ==> r.Some? && DedupMatch(s[r.value], PhoneKey(phone.value)) && s[j].id <= s[r.value].id
  {
    if Present(conversationId) && DedupMatch(s[j], ConvKey(conversationId.value)) {
      LatestMatchHasHighestId(s, ConvKey(conversationId.value), j);
    }
    if Present(phone) && DedupMatch(s[j], PhoneKey(phone.value))
       && (Present(conversationId) ==> forall i :: 0 <= i < |s| ==> !DedupMatch(s[i], ConvKey(conversationId.value))) {
      LatestMatchHasHighestId(s, PhoneKey(phone.value), j);
    }
  }

  /** An OPEN SMS row that carries a real conversation id. */
  predicate OpenSmsThread(x: Issue) {
    x.status == Open && x.kind == Sms && Present(x.conversationId)
  }

  /** At most one OPEN SMS issue per known conversation id. */
  predicate OneOpenPerConversation(s: seq<Issue>) {
    forall i, j :: 0 <= i < j < |s| && OpenSmsThread(s[i]) && OpenSmsThread(s[j]) ==>
      s[i].conversationId != s[j].conversationId
  }

  function IndexOfId(s: seq<Issue>, id: nat): (r: Option<nat>)
    ensures r.Some? ==> r.value < |s| && s[r.value].id == id
    ensures r.None? ==> forall i :: 0 <= i < |s| ==> s[i].id != id
  {
    if s == [] then None
    else if s[|s| - 1].id == id then Some(|s| - 1)
    else IndexOfId(s[..|s| - 1], id)
  }

  // ---------------------------------------------------------------------
  // `list_open_issues`: OPEN rows by due_ts ascending, then LIMIT/OFFSET
  // ---------------------------------------------------------------------

  function FilterOpen(s: seq<Issue>): (r: seq<Issue>)
    ensures forall x :: x in r <==> x in s && x.status == Open
    ensures |r| <= |s|
  {
    if s == [] then []
    else FilterOpen(s[..|s| - 1]) + (if s[|s| - 1].status == Open then [s[|s| - 1]] else [])
  }

  /** `ORDER BY due_ts ASC`; SQLite leaves ties unordered and the model
      breaks them by id. */
  predicate DueBefore(a: Issue, b: Issue) {
    a.dueTs < b.dueTs || (a.dueTs == b.dueTs && a.id <= b.id)
  }

  predicate SortedByDue(s: seq<Issue>) {
    forall i, j :: 0 <= i < j < |s| ==> DueBefore(s[i], s[j])
  }

  function InsertByDue(x: Issue, s: seq<Issue>): (r: seq<Issue>)
    ensures multiset(r) == multiset(s) + multiset{x}
    ensures SortedByDue(s) ==> SortedByDue(r)
  {
    if s == [] then [x]
    else if DueBefore(x, s[0]) then [x] + s
    else
      assert s == [s[0]] + s[1..];
      var rest := InsertByDue(x, s[1..]);
      assert SortedByDue(s) ==> SortedByDue([s[0]] + rest) by {
        if SortedByDue(s) {
          SortedTail(s);
          InsertBelowHead(x, s, rest);
        }
      }
      [s[0]] + rest
  }

  lemma SortedTail(s: seq<Issue>)
    requires s != [] && SortedByDue(s)
    ensures SortedByDue(s[1..])
  {
    var t := s[1..];
    forall i, j | 0 <= i < j < |t| ensures DueBefore(t[i], t[j]) {
      assert t[i] == s[i + 1] && t[j] == s[j + 1];
    }
  }

  /** The rows after the head of a sorted table, with `x` inserted, still
      come after the head when `x` does. */
  lemma InsertBelowHead(x: Issue, s: seq<Issue>, rest: seq<Issue>)
    requires s != [] && SortedByDue(s) && !DueBefore(x, s[0])
    requires SortedByDue(rest) && multiset(rest) == multiset(s[1..]) + multiset{x}
    ensures SortedByDue([s[0]] + rest)
  {
    forall j | 0 <= j < |rest| ensures DueBefore(s[0], rest[j]) {
      assert rest[j] in multiset(s[1..]) + multiset{x};
      if rest[j] in multiset(s[1..]) {
        var k :| 0 <= k < |s[1..]| && s[1..][k] == rest[j];
        assert s[k + 1] == rest[j];
      }
    }
    var r := [s[0]] + rest;
    forall i, j | 0 <= i < j < |r| ensures DueBefore(r[i], r[j]) {
      if i > 0 {
        assert r[i] == rest[i - 1] && r[j] == rest[j - 1];
      }
    }
  }

  function SortByDue(s: seq<Issue>): (r: seq<Issue>)
    ensures SortedByDue(r)
    ensures multiset(r) == multiset(s)
  {
    if s == [] then []
    else
      assert s == [s[0]] + s[1..];
      InsertByDue(s[0], SortByDue(s[1..]))
  }

  /** `LIMIT limit OFFSET offset` */
  function Page(s: seq<Issue>, offset: nat, limit: nat): (r: seq<Issue>)
    ensures |r| == if offset >= |s| then 0 else if offset + limit <= |s| then limit else |s| - offset
    ensures forall i :: 0 <= i < |r| ==> r[i] == s[offset + i]
  {
    if offset >= |s| then [] else s[offset..if offset + limit <= |s| then offset + limit else |s|]
  }

  function OpenByDue(s: seq<Issue>): seq<Issue> {
    SortByDue(FilterOpen(s))
  }

  /** Two consecutive pages are one page of their combined size. */
  lemma PagesAdjoin(s: seq<Issue>, offset: nat, a: nat, b: nat)
    ensures Page(s, offset, a) + Page(s, offset + a, b) == Page(s, offset, a + b)
  {
    var p := Page(s, offset, a);
    var q := Page(s, offset + a, b);
    var pq := Page(s, offset, a + b);
    assert |p + q| == |pq|;
    forall i | 0 <= i < |pq| ensures (p + q)[i] == pq[i] {
      if i >= |p| {
        assert (p + q)[i] == q[i - |p|];
      }
    }
  }

  /** A page of the listing holds OPEN rows of the table, in due order, and
      no more than `limit` of them. */
  lemma PageOfOpenByDue(s: seq<Issue>, offset: nat, limit: nat)
    ensures var p := Page(OpenByDue(s), offset, limit);
            && |p| <= limit
            && SortedByDue(p)
            && (forall x :: x in p ==> x in s && x.status == Open)
            && (p == [] <==> offset >= |FilterOpen(s)| || limit == 0)
  {
    var all := OpenByDue(s);
    var p := Page(all, offset, limit);
    assert |all| == |FilterOpen(s)| by {
      assert |multiset(all)| == |multiset(FilterOpen(s))|;
    }
    forall x | x in p ensures x in s && x.status == Open {
      var i :| 0 <= i < |p| && p[i] == x;
      assert all[offset + i] == x;
      assert x in multiset(all);
      assert x in FilterOpen(s);
    }
  }
}
