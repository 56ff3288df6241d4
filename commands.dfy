/** The manager commands of app/main.py (`handle_command`): tokenising,
    issue-id parsing, the List/More pager with its per-manager offsets, and
    the Open, Note, Resolve and Spam commands over the issue store. */
module Commands {
  import opened Base
  import opened Issues
  import opened Phones
  import opened Store
  import opened Summary

  // ---------------------------------------------------------------------
  // Tokenising
  // ---------------------------------------------------------------------

  /** A token of `str.split()`: non-empty, no whitespace. */
  predicate IsWord(w: string) {
    w != [] && forall i :: 0 <= i < |w| ==> !IsSpace(w[i])
  }

  /** The length of the leading run of non-whitespace characters. */
  function WordLength(s: string): (n: nat)
    ensures n <= |s|
    ensures forall i :: 0 <= i < n ==> !IsSpace(s[i])
    ensures n < |s| ==> IsSpace(s[n])
  {
    if s == [] || IsSpace(s[0]) then 0 else 1 + WordLength(s[1..])
  }

  /** `s.split()`: the maximal runs of non-whitespace characters. */
  function Split(s: string): seq<string>
    decreases |s|
  {
    if s == [] then []
    else if IsSpace(s[0]) then Split(s[1..])
    else [s[..WordLength(s)]] + Split(s[WordLength(s)..])
  }

  /** Every token of a split is a word. */
  lemma {:induction false} SplitAreWords(s: string)
    ensures forall i :: 0 <= i < |Split(s)| ==> IsWord(Split(s)[i])
    decreases |s|
  {
    if s != [] {
      if IsSpace(s[0]) {
        SplitAreWords(s[1..]);
      } else {
        LeadingRunIsWord(s);
        SplitAreWords(s[WordLength(s)..]);
      }
    }
  }

  lemma LeadingRunIsWord(t: string)
    requires t != [] && !IsSpace(t[0])
    ensures IsWord(t[..WordLength(t)])
  {
    var n := WordLength(t);
    forall i | 0 <= i < n ensures !IsSpace(t[..n][i]) {
      assert t[..n][i] == t[i];
    }
  }

  lemma {:induction false} WordLengthOfWord(w: string, rest: string)
    requires IsWord(w) && (rest == [] || IsSpace(rest[0]))
    ensures WordLength(w + rest) == |w|
    decreases |w|
  {
    assert (w + rest)[0] == w[0];
    if |w| > 1 {
      WordLengthOfWord(w[1..], rest);
      assert (w + rest)[1..] == w[1..] + rest;
    } else {
      assert (w + rest)[1..] == rest;
    }
  }

  /** Joined words start with the first word. */
  lemma JoinHead(ws: seq<string>)
    requires |ws| >= 1 && IsWord(ws[0])
    ensures Join(" ", ws) != [] && Join(" ", ws)[0] == ws[0][0]
  {
  }

  /** A word followed by whitespace or nothing is the first token. */
  lemma {:induction false} SplitWordFirst(w: string, rest: string)
    requires IsWord(w) && (rest == [] || IsSpace(rest[0]))
    ensures Split(w + rest) == [w] + Split(rest)
  {
    var s := w + rest;
    assert s[0] == w[0];
    WordLengthOfWord(w, rest);
    assert s[..|w|] == w;
    assert s[|w|..] == rest;
  }

  /** `" ".join(words).split()` gives the words back. */
  lemma {:induction false} SplitJoin(ws: seq<string>)
    requires forall i :: 0 <= i < |ws| ==> IsWord(ws[i])
    ensures Split(Join(" ", ws)) == ws
  {
    if |ws| == 1 {
      SplitWordFirst(ws[0], []);
      assert ws[0] + [] == ws[0];
    } else if |ws| > 1 {
      var rest := Join(" ", ws[1..]);
      var spaced := " " + rest;
      SplitWordFirst(ws[0], spaced);
      assert ws[0] + spaced == Join(" ", ws);
      assert spaced[1..] == rest;
      SplitJoin(ws[1..]);
      assert ws == [ws[0]] + ws[1..];
    }
  }

  const SentinelWord: string := "sentinel"

  /** `re.sub(r"^\s*sentinel\s+", "", raw, flags=re.IGNORECASE)`: the word
      must be followed by whitespace, and all of that whitespace goes. */
  function DropSentinel(raw: string): (r: string)
    ensures r == raw || (|r| + 9 <= |raw| && EndsWith(raw, r) && (r == [] || !IsSpace(r[0])))
  {
    var lead := StripLeft(raw);
    if |lead| > 8 && Lower(lead[..8]) == SentinelWord && IsSpace(lead[8]) then
      var r := AfterPrefixWord(lead);
      DroppedIsSuffix(raw, lead, r);
      r
    else raw
  }

  /** The text after an eight-letter word, with the whitespace that
      follows it stripped. */
  function AfterPrefixWord(lead: string): (r: string)
    requires |lead| > 8 && IsSpace(lead[8])
    ensures EndsWith(lead[8..], r) && (r == [] || !IsSpace(r[0]))
  {
    StripLeft(lead[8..])
  }

  /** What is left after the prefix and its whitespace is a proper suffix
      of the text, at least nine characters shorter. */
  lemma DroppedIsSuffix(raw: string, lead: string, r: string)
    requires EndsWith(raw, lead) && |lead| > 8 && IsSpace(lead[8])
    requires EndsWith(lead[8..], r) && (r == [] || !IsSpace(r[0]))
    ensures |r| + 9 <= |raw| && EndsWith(raw, r)
  {
    var rest := lead[8..];
    assert rest[0] == lead[8];
    assert |r| < |rest|;
    assert r == lead[|lead| - |r|..];
  }

  const KnownCommands: set<string> := {"list", "more", "open", "resolve", "spam", "note"}

  datatype Tokens = Blank | NotACommand | Command(name: string, args: seq<string>)

  /** The front of `handle_command`: strip, drop the optional "sentinel"
      prefix, turn commas into spaces, split, lower-case the first word and
      keep only the known commands. */
  function Tokenize(text: string): (r: Tokens)
    ensures Strip(text) == "" ==> r == Blank
    ensures r.Command? ==> r.name in KnownCommands
    ensures r.Command? ==> forall i :: 0 <= i < |r.args| ==> IsWord(r.args[i])
  {
    var raw := Strip(text);
    if raw == "" then Blank else Classify(DropSentinel(raw))
  }

  /** The words of a text with its prefix dropped: commas count as spaces,
      and the first word, lower-cased, must name a command. */
  function Classify(body: string): (r: Tokens)
    ensures r.Command? ==> r.name in KnownCommands
    ensures r.Command? ==> forall i :: 0 <= i < |r.args| ==> IsWord(r.args[i])
    ensures var parts := Split(ReplaceChar(body, ',', ' '));
            && (r == Blank <==> parts == [])
            && (r == NotACommand <==> parts != [] && Lower(parts[0]) !in KnownCommands)
            && (r.Command? ==> r.name == Lower(parts[0]) && r.args == parts[1..])
  {
    var spaced := ReplaceChar(body, ',', ' ');
    var parts := Split(spaced);
    SplitAreWords(spaced);
    if parts == [] then Blank
    else
      StrippedFixed(parts[0]);
      var name := Lower(Strip(parts[0]));
      if name in KnownCommands then Command(name, parts[1..]) else NotACommand
  }

  /** Words free of a character other than the space join into a text free
      of it. */
  lemma {:induction false} JoinAvoids(ws: seq<string>, c: char)
    requires c != ' ' && forall i, j :: 0 <= i < |ws| && 0 <= j < |ws[i]| ==> ws[i][j] != c
    ensures forall k :: 0 <= k < |Join(" ", ws)| ==> Join(" ", ws)[k] != c
  {
    if |ws| > 1 {
      JoinAvoids(ws[1..], c);
      var w := ws[0];
      var rest := Join(" ", ws[1..]);
      assert Join(" ", ws) == w + " " + rest;
      forall k | 0 <= k < |Join(" ", ws)| ensures Join(" ", ws)[k] != c {
        if k < |w| {
          assert Join(" ", ws)[k] == w[k];
        } else if k > |w| {
          assert Join(" ", ws)[k] == rest[k - |w| - 1];
        }
      }
    } else if |ws| == 1 {
      assert forall k :: 0 <= k < |ws[0]| ==> ws[0][k] != c;
    }
  }

  lemma JoinEnd(ws: seq<string>)
    requires |ws| >= 1 && forall i :: 0 <= i < |ws| ==> IsWord(ws[i])
    ensures var j := Join(" ", ws); j != [] && !IsSpace(j[|j| - 1])
  {
    if |ws| > 1 {
      JoinEnd(ws[1..]);
      var j := Join(" ", ws);
      assert j == ws[0] + " " + Join(" ", ws[1..]);
    } else {
      assert IsWord(ws[0]);
    }
  }

  /** The words of a command, joined by spaces, classify as the
      lower-cased command and the remaining words. */
  lemma ClassifyWords(ws: seq<string>)
    requires |ws| >= 1 && forall i :: 0 <= i < |ws| ==> IsWord(ws[i])
    requires forall i, j :: 0 <= i < |ws| && 0 <= j < |ws[i]| ==> ws[i][j] != ','
    requires Lower(ws[0]) in KnownCommands
    ensures Classify(Join(" ", ws)) == Command(Lower(ws[0]), ws[1..])
  {
    var j := Join(" ", ws);
    SplitJoin(ws);
    JoinAvoids(ws, ',');
    assert ReplaceChar(j, ',', ' ') == j;
    assert IsWord(ws[0]);
    StrippedFixed(ws[0]);
  }

  /** A leading "sentinel" in any case, then a space, is dropped. */
  lemma DropSentinelPrefix(prefix: string, j: string)
    requires |prefix| == 8 && Lower(prefix) == SentinelWord
    requires j != [] && IsStripped(j)
    ensures var p := prefix + " " + j; Strip(p) == p && DropSentinel(p) == j
  {
    var p := prefix + " " + j;
    assert p[|p| - 1] == j[|j| - 1];
    assert !IsSpace(p[0]) by {
      assert Lower(prefix)[0] == 's';
    }
    StrippedFixed(p);
    assert StripLeft(p) == p;
    assert p[..8] == prefix;
    assert p[8..] == " " + j;
    assert (" " + j)[1..] == j;
    assert StripLeft(j) == j;
  }

  /** A command typed as words, any case, with or without a leading
      "Sentinel" in any case, tokenises to the lower-cased command and the
      remaining words. */
  lemma TokenizeWords(ws: seq<string>, prefix: string)
    requires |ws| >= 1 && forall i :: 0 <= i < |ws| ==> IsWord(ws[i])
    requires forall i, j :: 0 <= i < |ws| && 0 <= j < |ws[i]| ==> ws[i][j] != ','
    requires Lower(ws[0]) in KnownCommands
    requires |prefix| == 8 && Lower(prefix) == SentinelWord
    ensures Tokenize(Join(" ", ws)) == Command(Lower(ws[0]), ws[1..])
    ensures Tokenize(prefix + " " + Join(" ", ws)) == Command(Lower(ws[0]), ws[1..])
  {
    TokenizeBare(ws);
    TokenizePrefixed(ws, prefix);
  }

  /** The converse: when the first word, lower-cased, is not a command
      (and, without a prefix, is not "sentinel" itself), the text is not a
      command, with or without a leading "Sentinel". */
  lemma TokenizeWordsNotCommand(ws: seq<string>, prefix: string)
    requires |ws| >= 1 && forall i :: 0 <= i < |ws| ==> IsWord(ws[i])
    requires forall i, j :: 0 <= i < |ws| && 0 <= j < |ws[i]| ==> ws[i][j] != ','
    requires Lower(ws[0]) !in KnownCommands
    requires |prefix| == 8 && Lower(prefix) == SentinelWord
    ensures Lower(ws[0]) != SentinelWord ==> Tokenize(Join(" ", ws)) == NotACommand
    ensures Tokenize(prefix + " " + Join(" ", ws)) == NotACommand
  {
    var j := Join(" ", ws);
    ClassifyWordsNotCommand(ws);
    if Lower(ws[0]) != SentinelWord {
      PlainWordsKept(ws);
      TokenizeVia(j, j);
    }
    PrefixedCommandText(ws, prefix);
    TokenizeVia(prefix + " " + j, j);
  }

  /** Words whose first word is not "sentinel" in any case keep their
      text when the prefix is dropped. */
  lemma PlainWordsKept(ws: seq<string>)
    requires |ws| >= 1 && forall i :: 0 <= i < |ws| ==> IsWord(ws[i])
    requires Lower(ws[0]) != SentinelWord
    ensures var j := Join(" ", ws); Strip(j) != "" && DropSentinel(Strip(j)) == j
  {
    var j := Join(" ", ws);
    JoinHead(ws);
    JoinEnd(ws);
    StrippedFixed(j);
    assert StripLeft(j) == j;
    if |j| > 8 {
      FirstWordNotPrefix(ws);
    }
  }

  /** In a text of words longer than eight characters, the first eight
      characters followed by whitespace spell "sentinel" only when the first
      word does. */
  lemma FirstWordNotPrefix(ws: seq<string>)
    requires |ws| >= 1 && forall i :: 0 <= i < |ws| ==> IsWord(ws[i])
    requires Lower(ws[0]) != SentinelWord && |Join(" ", ws)| > 8
    ensures var j := Join(" ", ws); !(Lower(j[..8]) == SentinelWord && IsSpace(j[8]))
  {
    var j := Join(" ", ws);
    var w := ws[0];
    if |ws| > 1 {
      assert j == w + " " + Join(" ", ws[1..]);
    }
    assert j[..|w|] == w;
    if |w| > 8 {
      assert j[8] == w[8];
    } else if |w| == 8 {
      assert j[..8] == w;
    } else {
      assert j[|w|] == ' ';
      assert Lower(j[..8])[|w|] == ' ';
    }
  }

  /** Space-joined words whose first word is not a command classify as
      not a command. */
  lemma ClassifyWordsNotCommand(ws: seq<string>)
    requires |ws| >= 1 && forall i :: 0 <= i < |ws| ==> IsWord(ws[i])
    requires forall i, j :: 0 <= i < |ws| && 0 <= j < |ws[i]| ==> ws[i][j] != ','
    requires Lower(ws[0]) !in KnownCommands
    ensures Classify(Join(" ", ws)) == NotACommand
  {
    var j := Join(" ", ws);
    SplitJoin(ws);
    JoinAvoids(ws, ',');
    assert ReplaceChar(j, ',', ' ') == j;
  }

  lemma TokenizeBare(ws: seq<string>)
    requires |ws| >= 1 && forall i :: 0 <= i < |ws| ==> IsWord(ws[i])
    requires forall i, j :: 0 <= i < |ws| && 0 <= j < |ws[i]| ==> ws[i][j] != ','
    requires Lower(ws[0]) in KnownCommands
    ensures Tokenize(Join(" ", ws)) == Command(Lower(ws[0]), ws[1..])
  {
    assert |Lower(ws[0])| == |ws[0]|;
    PlainWordsKept(ws);
    ClassifyWords(ws);
    TokenizeVia(Join(" ", ws), Join(" ", ws));
  }

  lemma TokenizePrefixed(ws: seq<string>, prefix: string)
    requires |ws| >= 1 && forall i :: 0 <= i < |ws| ==> IsWord(ws[i])
    requires forall i, j :: 0 <= i < |ws| && 0 <= j < |ws[i]| ==> ws[i][j] != ','
    requires Lower(ws[0]) in KnownCommands
    requires |prefix| == 8 && Lower(prefix) == SentinelWord
    ensures Tokenize(prefix + " " + Join(" ", ws)) == Command(Lower(ws[0]), ws[1..])
  {
    PrefixedCommandText(ws, prefix);
    ClassifyWords(ws);
    TokenizeVia(prefix + " " + Join(" ", ws), Join(" ", ws));
  }

  lemma PrefixedCommandText(ws: seq<string>, prefix: string)
    requires |ws| >= 1 && forall i :: 0 <= i < |ws| ==> IsWord(ws[i])
    requires |prefix| == 8 && Lower(prefix) == SentinelWord
    ensures var p := prefix + " " + Join(" ", ws);
            Strip(p) != "" && DropSentinel(Strip(p)) == Join(" ", ws)
  {
    var j := Join(" ", ws);
    JoinHead(ws);
    JoinEnd(ws);
    DropSentinelPrefix(prefix, j);
  }

  /** A non-blank text whose stripped, prefix-free form is `body`
      tokenises as `body` classifies. */
  lemma TokenizeVia(text: string, body: string)
    requires Strip(text) != "" && DropSentinel(Strip(text)) == body
    ensures Tokenize(text) == Classify(body)
  {
  }

  // ---------------------------------------------------------------------
  // Issue ids
  // ---------------------------------------------------------------------

  /** `_parse_issue_id`, also the per-token step of `_parse_ids`: strip,
      drop one leading "#", and read the rest when it is all digits. */
  function ParseIssueId(token: string): (r: Option<nat>)
    ensures Strip(token) in {"", "#"} ==> r.None?
    ensures r.Some? ==> IsDigit(Strip(token)[|Strip(token)| - 1])
  {
    var t := Strip(token);
    var u := if StartsWith(t, "#") then t[1..] else t;
    if IsDigits(u) then Some(DigitsValue(u)) else None
  }

  /** `str(n)` and `"#" + str(n)` both parse back to `n`. */
  lemma ParseIssueIdRoundTrip(n: nat)
    ensures ParseIssueId(ShowNat(n)) == Some(n)
    ensures ParseIssueId("#" + ShowNat(n)) == Some(n)
  {
    ShowNatRoundTrip(n);
    ParseBareId(ShowNat(n));
    ParseHashedId(ShowNat(n));
  }

  /** A digit string without "#" parses to its value. */
  lemma ParseBareId(d: string)
    requires d != "" && IsDigits(d)
    ensures ParseIssueId(d) == Some(DigitsValue(d))
  {
    assert !IsSpace(d[0]) && !IsSpace(d[|d| - 1]);
    StrippedFixed(d);
    assert !StartsWith(d, "#") by {
      assert d[..1][0] == d[0];
    }
  }

  /** A digit string after one "#" parses to its value. */
  lemma ParseHashedId(d: string)
    requires d != "" && IsDigits(d)
    ensures ParseIssueId("#" + d) == Some(DigitsValue(d))
  {
    var h := "#" + d;
    assert !IsSpace(h[0]) && h[|h| - 1] == d[|d| - 1];
    StrippedFixed(h);
    assert h[..1] == "#" && h[1..] == d;
  }

  /** The ids of the tokens that parse, in token order. */
  function TokenIds(tokens: seq<string>): (r: seq<nat>)
    ensures |r| <= |tokens|
  {
    if tokens == [] then []
    else
      var v := ParseIssueId(tokens[|tokens| - 1]);
      TokenIds(tokens[..|tokens| - 1]) + (if v.Some? then [v.value] else [])
  }

  predicate Distinct(s: seq<nat>) {
    forall i, j :: 0 <= i < j < |s| ==> s[i] != s[j]
  }

  /** Keep the first occurrence of each id. */
  function Dedup(s: seq<nat>): (r: seq<nat>)
    ensures Distinct(r)
    ensures forall x :: x in r <==> x in s
  {
    if s == [] then []
    else
      var d := Dedup(s[..|s| - 1]);
      assert forall x :: x in s <==> x in s[..|s| - 1] || x == s[|s| - 1] by {
        assert s == s[..|s| - 1] + [s[|s| - 1]];
      }
      if s[|s| - 1] in d then d else d + [s[|s| - 1]]
  }

  /** A list without repeats is kept as it is. */
  lemma {:induction false} DedupOfDistinct(s: seq<nat>)
    requires Distinct(s)
    ensures Dedup(s) == s
  {
    if s != [] {
      DedupOfDistinct(s[..|s| - 1]);
      assert s[|s| - 1] !in s[..|s| - 1];
      assert s == s[..|s| - 1] + [s[|s| - 1]];
    }
  }

  /** Appending ids never reorders or drops the ids already kept. */
  lemma {:induction false} DedupPrefix(a: seq<nat>, b: seq<nat>)
    ensures Dedup(a) <= Dedup(a + b)
    decreases |b|
  {
    if b == [] {
      assert a + b == a;
    } else {
      DedupPrefix(a, b[..|b| - 1]);
      assert (a + b)[..|a + b| - 1] == a + b[..|b| - 1];
    }
  }

  /** `_parse_ids`: the ids of the tokens that parse, then the first
      occurrence of each. */
  method ParseIds(tokens: seq<string>) returns (out: seq<nat>)
    ensures out == Dedup(TokenIds(tokens))
  {
    var ids := CollectIds(tokens);
    out := DedupIds(ids);
  }

  /** The first loop of `_parse_ids`. */
  method CollectIds(tokens: seq<string>) returns (ids: seq<nat>)
    ensures ids == TokenIds(tokens)
  {
    ids := [];
    var i := 0;
    while i < |tokens|
      invariant 0 <= i <= |tokens|
      invariant ids == TokenIds(tokens[..i])
    {
      var v := ParseIssueId(tokens[i]);
      TokenIdsStep(tokens, i, v);
      if v.Some? {
        ids := ids + [v.value];
      }
      i := i + 1;
    }
    assert tokens[..i] == tokens;
  }

  /** One more token adds its id, when it has one, to the ids so far. */
  lemma TokenIdsStep(tokens: seq<string>, i: nat, v: Option<nat>)
    requires i < |tokens| && v == ParseIssueId(tokens[i])
    ensures TokenIds(tokens[..i + 1]) == TokenIds(tokens[..i]) + (if v.Some? then [v.value] else [])
  {
    TokenIdsSnoc(tokens[..i + 1], tokens[..i], tokens[i], v);
  }

  lemma TokenIdsSnoc(pre: seq<string>, init: seq<string>, last: string, v: Option<nat>)
    requires pre == init + [last] && v == ParseIssueId(last)
    ensures TokenIds(pre) == TokenIds(init) + (if v.Some? then [v.value] else [])
  {
    assert pre[..|pre| - 1] == init;
  }

  /** The de-duplicating loop of `_parse_ids`, with its `seen` set. */
  method DedupIds(ids: seq<nat>) returns (out: seq<nat>)
    ensures out == Dedup(ids)
  {
    var seen: set<nat> := {};
    out := [];
    var j := 0;
    while j < |ids|
      invariant 0 <= j <= |ids|
      invariant out == Dedup(ids[..j])
      invariant forall x :: x in seen <==> x in out
    {
      assert ids[..j + 1][..j] == ids[..j];
      if ids[j] !in seen {
        out := out + [ids[j]];
        seen := seen + {ids[j]};
      }
      j := j + 1;
    }
    assert ids[..j] == ids;
  }

  // ---------------------------------------------------------------------
  // The List / More page text
  // ---------------------------------------------------------------------

  const PageSize: nat := 5

  /** `start = offset + 1 if total_open else 0` */
  function RangeStart(total: nat, offset: nat): (r: nat)
    ensures r == 0 <==> total == 0
  {
    if total > 0 then offset + 1 else 0
  }

  /** `end = min(offset + limit, total_open)` */
  function RangeEnd(total: nat, offset: nat, limit: nat): (r: nat)
    ensures r <= total && r <= offset + limit
    ensures r == total || r == offset + limit
  {
    if offset + limit < total then offset + limit else total
  }

  /** For a non-empty page the shown range is exactly the 1-based positions
      of its rows, and "Reply: More" is offered exactly when the next page
      has rows. */
  lemma RangeMatchesPage(s: seq<Issue>, offset: nat, limit: nat)
    requires Page(s, offset, limit) != []
    ensures RangeStart(|s|, offset) == offset + 1
    ensures RangeEnd(|s|, offset, limit) == offset + |Page(s, offset, limit)|
    ensures RangeEnd(|s|, offset, limit) < |s| <==> Page(s, offset + limit, limit) != []
  {
  }

  function PhoneText(p: Option<string>): string {
    if p.Some? then p.value else ""
  }

  /** One line of the list. The two times render as "?": the formatter
      refers to a name the module never imports, and the failure is caught. */
  function ListLine(x: Issue): (r: string)
    ensures r != [] && r[0] == '#'
  {
    "#" + LineBody(x)
  }

  function LineBody(x: Issue): string {
    ShowNat(x.id) + " " + MaskPhone(PhoneText(x.phone)) + " \U{2014} ? | due ?"
    + (if x.kind == Sms then " in=" + ShowNat(x.inboundCount) else "")
  }

  /** The lines of the rows of one kind, in row order. */
  function KindLines(rows: seq<Issue>, kind: Kind): (r: seq<string>)
    ensures |r| <= |rows|
    ensures forall i :: 0 <= i < |r| ==> r[i] != [] && r[i][0] == '#'
  {
    if rows == [] then []
    else
      var last := rows[|rows| - 1];
      KindLines(rows[..|rows| - 1], kind) + (if last.kind == kind then [ListLine(last)] else [])
  }

  lemma {:induction false} KindLinesPartition(rows: seq<Issue>)
    ensures |KindLines(rows, Call)| + |KindLines(rows, Sms)| == |rows|
  {
    if rows != [] {
      KindLinesPartition(rows[..|rows| - 1]);
    }
  }

  function Group(title: string, lines: seq<string>): seq<string> {
    if lines == [] then [] else [title + " (" + ShowNat(|lines|) + "):"] + lines
  }

  const MoreHint: string := "Reply: More"

  function RangeHeader(total: nat, offset: nat, limit: nat): string {
    "OPEN (" + ShowNat(total) + ") \U{2014} showing "
    + ShowNat(RangeStart(total, offset)) + "-" + ShowNat(RangeEnd(total, offset, limit))
  }

  /** The live `_render_list_like_summary`, as its list of lines: a header
      with the range, the calls, the texts, and the "Reply: More" hint when
      rows remain past this page. */
  function RenderLines(rows: seq<Issue>, total: nat, offset: nat, limit: nat): (r: seq<string>)
    ensures r != [] && r[0] == RangeHeader(total, offset, limit)
    ensures |r| == 1 + |rows| + (if KindLines(rows, Call) == [] then 0 else 1)
                  + (if KindLines(rows, Sms) == [] then 0 else 1)
                  + (if RangeEnd(total, offset, limit) < total then 1 else 0)
    ensures r[|r| - 1] == MoreHint <==> RangeEnd(total, offset, limit) < total
  {
    var calls := KindLines(rows, Call);
    var texts := KindLines(rows, Sms);
    var body := [RangeHeader(total, offset, limit)] + Group("Calls", calls) + Group("Texts", texts);
    KindLinesPartition(rows);
    BodyEndsBeforeHint(RangeHeader(total, offset, limit), calls, texts);
    if RangeEnd(total, offset, limit) < total then body + [MoreHint] else body
  }

  /** The last line of the header and groups is never the "More" hint. */
  lemma BodyEndsBeforeHint(header: string, calls: seq<string>, texts: seq<string>)
    requires header != [] && header[0] == 'O'
    requires forall i :: 0 <= i < |calls| ==> calls[i] != [] && calls[i][0] == '#'
    requires forall i :: 0 <= i < |texts| ==> texts[i] != [] && texts[i][0] == '#'
    ensures var body := [header] + Group("Calls", calls) + Group("Texts", texts);
            body[|body| - 1] != MoreHint
  {
    var body := [header] + Group("Calls", calls) + Group("Texts", texts);
    var b := body[|body| - 1];
    if texts != [] {
      assert b == texts[|texts| - 1];
    } else if calls != [] {
      assert b == calls[|calls| - 1];
    }
    assert MoreHint[0] == 'R';
  }

  /** The text of one page of the List/More reply. */
  function PageText(s: seq<Issue>, offset: nat): string {
    Join("\n", RenderLines(Page(OpenByDue(s), offset, PageSize), |FilterOpen(s)|, offset, PageSize))
  }

  /** The rows shown by List and then `k` times More, while each page has
      rows. */
  function ShownRows(s: seq<Issue>, k: nat): seq<Issue> {
    if k == 0 then Page(s, 0, PageSize)
    else ShownRows(s, k - 1) + Page(s, k * PageSize, PageSize)
  }

  /** List followed by `k` Mores shows the first `5 * (k + 1)` rows, in
      order, each once. */
  lemma {:induction false} ShownRowsArePrefix(s: seq<Issue>, k: nat)
    ensures ShownRows(s, k) == Page(s, 0, (k + 1) * PageSize)
  {
    if k > 0 {
      ShownRowsArePrefix(s, k - 1);
      PagesAdjoin(s, 0, k * PageSize, PageSize);
    }
  }

  // ---------------------------------------------------------------------
  // Replies and the command desk
  // ---------------------------------------------------------------------

  /** The JSON result of `handle_command`: ignored, an error, or a command
      result with its `ok` flag and reply text. */
  datatype Reply =
    | Ignored(reason: string)
    | Failed(error: string)
    | Answered(cmd: string, ok: bool, text: string)

  /** `", ".join(str(x) for x in ids)` */
  function ShowIds(ids: seq<nat>): string {
    Join(", ", seq(|ids|, i requires 0 <= i < |ids| => ShowNat(ids[i])))
  }

  /** Whether the table has an OPEN row with this id. */
  predicate HasOpenId(s: seq<Issue>, id: nat) {
    exists i :: 0 <= i < |s| && s[i].id == id && s[i].status == Open
  }

  /** The ids, in order, that have an OPEN row. */
  function OpenIds(s: seq<Issue>, ids: seq<nat>): (r: seq<nat>)
    ensures |r| <= |ids|
    ensures forall x :: x in r <==> x in ids && HasOpenId(s, x)
  {
    if ids == [] then []
    else
      var last := ids[|ids| - 1];
      assert forall x :: x in ids <==> x in ids[..|ids| - 1] || x == last by {
        assert ids == ids[..|ids| - 1] + [last];
      }
      OpenIds(s, ids[..|ids| - 1]) + (if HasOpenId(s, last) then [last] else [])
  }

  /** The phones the Spam-by-ids command adds to the spam list: the truthy
      phone of every row with one of the ids, whatever its status. */
  function PhonesOf(s: seq<Issue>, ids: seq<nat>): set<string> {
    set k | 0 <= k < |s| && s[k].id in ids && Present(s[k].phone) :: s[k].phone.value
  }

  /** The phone of the row with this id, when there is one and it is
      truthy. */
  function PhoneOfId(s: seq<Issue>, id: nat): set<string> {
    var k := IndexOfId(s, id);
    if k.Some? && Present(s[k.value].phone) then {s[k.value].phone.value} else {}
  }

  /** `ghl_conversation_link` */
  function ConversationLink(appBase: string, locationId: string, conversationId: Option<string>): (r: Option<string>)
    ensures r.Some? <==> Present(conversationId) && locationId != ""
  {
    if !Present(conversationId) || locationId == "" then None
    else Some(appBase + "/v2/location/" + locationId + "/conversations/conversations/" + conversationId.value)
  }

  /** The reply text of Open: the name, then the link, or the raw
      conversation id ("-" when there is none). */
  function OpenText(name: string, link: Option<string>, conversationId: Option<string>): (r: string)
    ensures StartsWith(r, name + ": ")
    ensures link.Some? ==> r[|name| + 2..] == link.value
    ensures link.None? ==> r[|name| + 2..] == "conversation_id=" + (if Present(conversationId) then conversationId.value else "-")
  {
    var head := name + ": ";
    var tail := if link.Some? then link.value
                else "conversation_id=" + (if Present(conversationId) then conversationId.value else "-");
    assert (head + tail)[..|head|] == head;
    assert (head + tail)[|head|..] == tail;
    head + tail
  }

  /** What `inbound_sms` did with one event. */
  datatype SmsOutcome =
    | IgnoredOutbound
    | Commanded(reply: Reply)
    | InternalNonCommand
    | Recorded(id: nat, created: bool)

  class CommandDesk {
    /** `_MANAGER_LIST_OFFSETS`: the current page offset per manager. */
    var offsets: map<string, nat>
    /** `GHL_APP_BASE` and `GHL_LOCATION_ID` */
    const appBase: string
    const locationId: string

    constructor (appBase: string, locationId: string)
      ensures offsets == map[] && this.appBase == appBase && this.locationId == locationId
    {
      offsets := map[];
      this.appBase := appBase;
      this.locationId := locationId;
    }

    /** List: reset the manager's offset to 0 and show the first page. */
    method List(store: IssueStore, manager: Option<string>) returns (reply: Reply)
      modifies this
      ensures !Present(manager) ==> reply == Failed("Missing manager contact id") && offsets == old(offsets)
      ensures Present(manager) ==> offsets == old(offsets)[manager.value := 0]
      ensures Present(manager) && FilterOpen(store.issues) == [] ==>
                reply == Answered("LIST", true, "No OPEN issues.")
      ensures Present(manager) && FilterOpen(store.issues) != [] ==>
                reply == Answered("LIST", true, PageText(store.issues, 0))
      ensures (reply, offsets) == ListEffect(store.issues, old(offsets), manager)
    {
      if !Present(manager) {
        return Failed("Missing manager contact id");
      }
      offsets := offsets[manager.value := 0];
      var (rows, total) := store.ListOpenIssues(PageSize, 0);
      if total == 0 {
        assert |FilterOpen(store.issues)| == 0;
        return Answered("LIST", true, "No OPEN issues.");
      }
      reply := Answered("LIST", true, Join("\n", RenderLines(rows, total, 0, PageSize)));
    }

    /** More: advance the manager's offset by one page; past the end, reset
        it to 0. */
    method More(store: IssueStore, manager: Option<string>) returns (reply: Reply)
      modifies this
      ensures !Present(manager) ==> reply == Failed("Missing manager contact id") && offsets == old(offsets)
      ensures Present(manager) && Page(OpenByDue(store.issues), NextOffset(old(offsets), manager.value), PageSize) == [] ==>
                && offsets == old(offsets)[manager.value := 0]
                && reply == Answered("MORE", true, "No more OPEN issues. Reply: List")
      ensures Present(manager) && Page(OpenByDue(store.issues), NextOffset(old(offsets), manager.value), PageSize) != [] ==>
                && offsets == old(offsets)[manager.value := NextOffset(old(offsets), manager.value)]
                && reply == Answered("MORE", true, PageText(store.issues, NextOffset(old(offsets), manager.value)))
      ensures (reply, offsets) == MoreEffect(store.issues, old(offsets), manager)
    {
      if !Present(manager) {
        return Failed("Missing manager contact id");
      }
      var m := manager.value;
      var offset := NextOffset(offsets, m);
      offsets := offsets[m := offset];
      var empty;
      reply, empty := MorePage(store, offset);
      if empty {
        offsets := offsets[m := 0];
      }
    }

    /** The page More shows at the advanced offset, or the end-of-list
        reply when that page is empty. */
    static method MorePage(store: IssueStore, offset: nat) returns (reply: Reply, empty: bool)
      ensures empty <==> Page(OpenByDue(store.issues), offset, PageSize) == []
      ensures empty ==> reply == Answered("MORE", true, "No more OPEN issues. Reply: List")
      ensures !empty ==> reply == Answered("MORE", true, PageText(store.issues, offset))
    {
      var (rows, total) := store.ListOpenIssues(PageSize, offset);
      if rows == [] {
        return Answered("MORE", true, "No more OPEN issues. Reply: List"), true;
      }
      reply := Answered("MORE", true, Join("\n", RenderLines(rows, total, offset, PageSize)));
      empty := false;
    }

    /** `_MANAGER_LIST_OFFSETS.get(manager, 0) + 5` */
    static function NextOffset(offsets: map<string, nat>, manager: string): nat {
      (if manager in offsets then offsets[manager] else 0) + PageSize
    }

    /** Open: the display name and the conversation link of one issue. An
        id of 0 is rejected like a malformed one. */
    function OpenCommand(s: seq<Issue>, args: seq<string>): (r: Reply)
      ensures args == [] ==> r == Failed("Usage: Open <id>")
      ensures args != [] && (ParseIssueId(args[0]).None? || ParseIssueId(args[0]) == Some(0)) ==>
                r == Failed("Invalid issue id")
      ensures args != [] && ParseIssueId(args[0]).Some? && ParseIssueId(args[0]).value > 0 ==>
                var id := ParseIssueId(args[0]).value;
                (IndexOfId(s, id).None? ==> r == Failed("Issue not found"))
                && (IndexOfId(s, id).Some? ==> r.Answered? && r.ok && StartsWith(r.text, DisplayName(s[IndexOfId(s, id).value]) + ": "))
    {
      if args == [] then Failed("Usage: Open <id>")
      else
        var iid := ParseIssueId(args[0]);
        if iid.None? || iid.value == 0 then Failed("Invalid issue id")
        else
          var k := IndexOfId(s, iid.value);
          if k.None? then Failed("Issue not found")
          else
            var x := s[k.value];
            Answered("OPEN", true, OpenText(DisplayName(x), ConversationLink(appBase, locationId, x.conversationId),
                                            x.conversationId))
    }

    // The effect of each command on the reply, the table, the spam list and
    // the offsets, as a function of the state before it. `HandleCommand`
    // is proved against `HandleEffect`.

    /** List: the reply and the new offsets. */
    function ListEffect(s: seq<Issue>, offsets: map<string, nat>, manager: Option<string>): (Reply, map<string, nat>) {
      if !Present(manager) then (Failed("Missing manager contact id"), offsets)
      else if FilterOpen(s) == [] then (Answered("LIST", true, "No OPEN issues."), offsets[manager.value := 0])
      else (Answered("LIST", true, PageText(s, 0)), offsets[manager.value := 0])
    }

    /** More: the reply and the new offsets. */
    function MoreEffect(s: seq<Issue>, offsets: map<string, nat>, manager: Option<string>): (Reply, map<string, nat>) {
      if !Present(manager) then (Failed("Missing manager contact id"), offsets)
      else
        var offset := NextOffset(offsets, manager.value);
        if Page(OpenByDue(s), offset, PageSize) == [] then
          (Answered("MORE", true, "No more OPEN issues. Reply: List"), offsets[manager.value := 0])
        else (Answered("MORE", true, PageText(s, offset)), offsets[manager.value := offset])
    }

    /** Note: the reply and the table. */
    function NoteEffect(s: seq<Issue>, args: seq<string>, now: int): (Reply, seq<Issue>) {
      if |args| < 2 then (Failed("Usage: Note <id> <text>"), s)
      else
        var iid := ParseIssueId(args[0]);
        if iid.None? || iid.value == 0 then (Failed("Invalid issue id"), s)
        else
          var k := IndexOfId(s, iid.value);
          if k.None? then (Answered("NOTE", false, "Issue not found."), s)
          else
            var x := s[k.value];
            (Answered("NOTE", true, "Noted."),
             s[k.value := x.(meta := x.meta.(notes := x.meta.notes + [Issues.Note(now, Take(Strip(Join(" ", args[1..])), TextCap))]))])
    }

    /** Resolve: the reply and the table. */
    function ResolveEffect(s: seq<Issue>, args: seq<string>, now: int): (Reply, seq<Issue>) {
      if args == [] then (Failed("Usage: Resolve <id...>  OR  Resolve <phone/contactId/name>"), s)
      else
        var ids := Dedup(TokenIds(args));
        if ids != [] then
          var changed := OpenIds(s, ids);
          (Answered("RESOLVE", true, if changed != [] then "Sentinel: Resolved " + ShowIds(changed) + "."
                                     else "Sentinel: No matching OPEN issues for those IDs."),
           CloseWhere(s, ByIdIn(IdSet(ids)), Resolved, now))
        else
          var target := Strip(Join(" ", args));
          (Answered("RESOLVE", true, "Sentinel: Resolved " + ShowNat(CountWhere(s, TargetSelector(target)))
                                     + " issue(s) for '" + target + "'."),
           CloseWhere(s, TargetSelector(target), Resolved, now))
    }

    /** Spam: the reply, the table and the spam list. */
    function SpamEffect(s: seq<Issue>, spam: set<string>, args: seq<string>, now: int): (Reply, seq<Issue>, set<string>) {
      if args == [] then (Failed("Usage: Spam <id...>  OR  Spam <phone>"), s, spam)
      else
        var ids := Dedup(TokenIds(args));
        if ids != [] then
          var marked := OpenIds(s, ids);
          (Answered("SPAM", true, if marked != [] then "Sentinel: Marked SPAM " + ShowIds(marked) + "."
                                  else "Sentinel: No matching OPEN issues for those IDs."),
           CloseWhere(s, ByIdIn(IdSet(ids)), Issues.Spam, now),
           spam + PhonesOf(s, ids))
        else
          var phone := NormalizePhone(Some(args[0]));
          if !Present(phone) then (Failed("Invalid phone or IDs"), s, spam)
          else (Answered("SPAM", true, "Sentinel: Marked SPAM " + phone.value + "."),
                CloseWhere(s, ByPhone(phone.value), Issues.Spam, now),
                spam + {phone.value})
    }

    /** A known command: the reply, the table, the spam list and the offsets. */
    function CommandEffect(s: seq<Issue>, spam: set<string>, offsets: map<string, nat>, cmd: string,
                           args: seq<string>, manager: Option<string>, now: int)
      : (Reply, seq<Issue>, set<string>, map<string, nat>)
    {
      if cmd == "list" then var (r, o) := ListEffect(s, offsets, manager); (r, s, spam, o)
      else if cmd == "more" then var (r, o) := MoreEffect(s, offsets, manager); (r, s, spam, o)
      else if cmd == "open" then (OpenCommand(s, args), s, spam, offsets)
      else if cmd == "note" then var (r, t) := NoteEffect(s, args, now); (r, t, spam, offsets)
      else if cmd == "resolve" then var (r, t) := ResolveEffect(s, args, now); (r, t, spam, offsets)
      else var (r, t, sp) := SpamEffect(s, spam, args, now); (r, t, sp, offsets)
    }

    /** `handle_command` on a text: ignored when blank or not a command,
        otherwise the command's effect. */
    function HandleEffect(s: seq<Issue>, spam: set<string>, offsets: map<string, nat>, text: string,
                          manager: Option<string>, now: int)
      : (Reply, seq<Issue>, set<string>, map<string, nat>)
    {
      match Tokenize(text)
      case Blank => (Ignored("empty"), s, spam, offsets)
      case NotACommand => (Ignored("not_a_command"), s, spam, offsets)
      case Command(cmd, args) => CommandEffect(s, spam, offsets, cmd, args, manager, now)
    }

    /** Note: append the rest of the words, joined by spaces, to an issue. */
    method Note(store: IssueStore, args: seq<string>, now: int) returns (reply: Reply)
      requires store.Valid()
      modifies store
      ensures store.Valid()
      ensures |args| < 2 ==> reply == Failed("Usage: Note <id> <text>") && store.issues == old(store.issues)
      ensures |args| >= 2 && (ParseIssueId(args[0]).None? || ParseIssueId(args[0]) == Some(0)) ==>
                reply == Failed("Invalid issue id") && store.issues == old(store.issues)
      ensures |args| >= 2 && ParseIssueId(args[0]).Some? && ParseIssueId(args[0]).value > 0 ==>
                var id := ParseIssueId(args[0]).value;
                var found := exists i :: 0 <= i < |old(store.issues)| && old(store.issues)[i].id == id;
                && reply == Answered("NOTE", found, if found then "Noted." else "Issue not found.")
                && (found ==> var k := IndexOfId(old(store.issues), id).value;
                              store.issues == old(store.issues)[k := old(store.issues)[k].(meta := old(store.issues)[k].meta.(
                                notes := old(store.issues)[k].meta.notes + [Issues.Note(now, Take(Strip(Join(" ", args[1..])), TextCap))]))])
                && (!found ==> store.issues == old(store.issues))
      ensures (reply, store.issues) == NoteEffect(old(store.issues), args, now)
      ensures store.spamPhones == old(store.spamPhones) && store.nextId == old(store.nextId)
    {
      if |args| < 2 {
        return Failed("Usage: Note <id> <text>");
      }
      var iid := ParseIssueId(args[0]);
      if iid.None? || iid.value == 0 {
        return Failed("Invalid issue id");
      }
      var noteText := Strip(Join(" ", args[1..]));
      var ok := store.AddNote(iid.value, noteText, now);
      reply := Answered("NOTE", ok, if ok then "Noted." else "Issue not found.");
    }

    /** The id loop of Resolve: `resolve_by_id` for each id, in order,
        collecting the ids that closed a row. */
    method ResolveIds(store: IssueStore, ids: seq<nat>, now: int) returns (changed: seq<nat>)
      requires store.Valid() && Distinct(ids)
      modifies store
      ensures store.Valid()
      ensures store.issues == CloseWhere(old(store.issues), ByIdIn(IdSet(ids)), Resolved, now)
      ensures changed == OpenIds(old(store.issues), ids)
      ensures store.spamPhones == old(store.spamPhones) && store.nextId == old(store.nextId)
    {
      ghost var s0 := store.issues;
      changed := [];
      var i := 0;
      while i < |ids|
        invariant 0 <= i <= |ids|
        invariant store.Valid()
        invariant store.issues == CloseWhere(s0, ByIdIn(IdSet(ids[..i])), Resolved, now)
        invariant changed == OpenIds(s0, ids[..i])
        invariant store.spamPhones == old(store.spamPhones) && store.nextId == old(store.nextId)
      {
        var iid := ids[i];
        IdLoopStep(s0, ids, i, Resolved, now);
        var n := store.ResolveById(iid, Resolved, now);
        if n > 0 {
          changed := changed + [iid];
        }
        i := i + 1;
      }
      assert ids[..i] == ids;
    }

    /** The id loop of Spam: for each id, in order, list the phone of the
        issue as spam when the issue exists and has one (whatever its
        status), then close it as SPAM, collecting the ids that closed a
        row. */
    method SpamIds(store: IssueStore, ids: seq<nat>, now: int) returns (marked: seq<nat>)
      requires store.Valid() && Distinct(ids)
      modifies store
      ensures store.Valid()
      ensures store.issues == CloseWhere(old(store.issues), ByIdIn(IdSet(ids)), Issues.Spam, now)
      ensures marked == OpenIds(old(store.issues), ids)
      ensures store.spamPhones == old(store.spamPhones) + PhonesOf(old(store.issues), ids)
      ensures store.nextId == old(store.nextId)
    {
      ghost var s0 := store.issues;
      ghost var listed := store.spamPhones;
      marked := [];
      var i := 0;
      while i < |ids|
        invariant 0 <= i <= |ids|
        invariant store.Valid() && IdsIncreasing(s0)
        invariant store.issues == CloseWhere(s0, ByIdIn(IdSet(ids[..i])), Issues.Spam, now)
        invariant marked == OpenIds(s0, ids[..i])
        invariant store.spamPhones == listed + PhonesOf(s0, ids[..i])
        invariant store.nextId == old(store.nextId)
      {
        marked := SpamOne(store, s0, listed, ids, i, marked, now);
        i := i + 1;
      }
      TakeAll(ids);
    }

    /** One pass of the Spam id loop: list the phone of the row with id
        `ids[i]`, then close that row as SPAM, adding the id to `marked`
        when the row was OPEN. */
    method SpamOne(store: IssueStore, ghost s0: seq<Issue>, ghost listed: set<string>, ids: seq<nat>, i: nat,
                   marked: seq<nat>, now: int)
      returns (marked': seq<nat>)
      requires store.Valid() && IdsIncreasing(s0) && Distinct(ids) && i < |ids|
      requires store.issues == CloseWhere(s0, ByIdIn(IdSet(ids[..i])), Issues.Spam, now)
      requires store.spamPhones == listed + PhonesOf(s0, ids[..i])
      requires marked == OpenIds(s0, ids[..i])
      modifies store
      ensures store.Valid()
      ensures store.issues == CloseWhere(s0, ByIdIn(IdSet(ids[..i + 1])), Issues.Spam, now)
      ensures marked' == OpenIds(s0, ids[..i + 1])
      ensures store.spamPhones == listed + PhonesOf(s0, ids[..i + 1])
      ensures store.nextId == old(store.nextId)
    {
      SpamPhonesAt(s0, store.issues, ids, i, IdSet(ids[..i]), Issues.Spam, now);
      UnionStep(listed, PhonesOf(s0, ids[..i]), PhoneOfId(store.issues, ids[i]), PhonesOf(s0, ids[..i + 1]));
      MarkIssuePhone(store, ids[i]);
      IdLoopStep(s0, ids, i, Issues.Spam, now);
      var n := store.ResolveById(ids[i], Issues.Spam, now);
      marked' := marked;
      if n > 0 {
        marked' := marked + [ids[i]];
      }
    }

    /** The spam step of the Spam id loop: list the issue's phone, if the
        issue exists and has one. */
    method MarkIssuePhone(store: IssueStore, iid: nat)
      requires store.Valid()
      modifies store
      ensures store.Valid()
      ensures store.spamPhones == old(store.spamPhones) + PhoneOfId(old(store.issues), iid)
      ensures store.issues == old(store.issues) && store.nextId == old(store.nextId)
    {
      var r := store.GetIssueById(iid);
      if r.Some? && Present(r.value.phone) {
        store.MarkSpam(r.value.phone.value);
      }
    }

    /** Resolve: by ids when any token is an id, otherwise by phone,
        contact id or name. */
    method Resolve(store: IssueStore, args: seq<string>, now: int) returns (reply: Reply)
      requires store.Valid()
      modifies store
      ensures store.Valid()
      ensures args == [] ==> store.issues == old(store.issues)
                             && reply == Failed("Usage: Resolve <id...>  OR  Resolve <phone/contactId/name>")
      ensures var ids := Dedup(TokenIds(args));
              args != [] && ids != [] ==>
                && store.issues == CloseWhere(old(store.issues), ByIdIn(IdSet(ids)), Resolved, now)
                && var changed := OpenIds(old(store.issues), ids);
                   reply == Answered("RESOLVE", true,
                                     if changed != [] then "Sentinel: Resolved " + ShowIds(changed) + "."
                                     else "Sentinel: No matching OPEN issues for those IDs.")
      ensures var ids := Dedup(TokenIds(args));
              args != [] && ids == [] ==>
                var target := Strip(Join(" ", args));
                && store.issues == CloseWhere(old(store.issues), TargetSelector(target), Resolved, now)
                && reply == Answered("RESOLVE", true, "Sentinel: Resolved "
                                     + ShowNat(CountWhere(old(store.issues), TargetSelector(target)))
                                     + " issue(s) for '" + target + "'.")
      ensures (reply, store.issues) == ResolveEffect(old(store.issues), args, now)
      ensures store.spamPhones == old(store.spamPhones) && store.nextId == old(store.nextId)
    {
      if args == [] {
        return Failed("Usage: Resolve <id...>  OR  Resolve <phone/contactId/name>");
      }
      var ids := ParseIds(args);
      if ids != [] {
        var changed := ResolveIds(store, ids, now);
        if changed != [] {
          return Answered("RESOLVE", true, "Sentinel: Resolved " + ShowIds(changed) + ".");
        }
        return Answered("RESOLVE", true, "Sentinel: No matching OPEN issues for those IDs.");
      }
      var target := Strip(Join(" ", args));
      var resolved := store.ResolveTarget(target, now);
      reply := Answered("RESOLVE", true, "Sentinel: Resolved " + ShowNat(resolved) + " issue(s) for '" + target + "'.");
    }

    /** Spam: by ids (listing each issue's phone as spam and closing the
        issue as SPAM), otherwise by the phone in the first word. */
    method Spam(store: IssueStore, args: seq<string>, now: int) returns (reply: Reply)
      requires store.Valid()
      modifies store
      ensures store.Valid()
      ensures args == [] ==> unchanged(store) && reply == Failed("Usage: Spam <id...>  OR  Spam <phone>")
      ensures var ids := Dedup(TokenIds(args));
              args != [] && ids != [] ==>
                && store.issues == CloseWhere(old(store.issues), ByIdIn(IdSet(ids)), Issues.Spam, now)
                && store.spamPhones == old(store.spamPhones) + PhonesOf(old(store.issues), ids)
                && var marked := OpenIds(old(store.issues), ids);
                   reply == Answered("SPAM", true,
                                     if marked != [] then "Sentinel: Marked SPAM " + ShowIds(marked) + "."
                                     else "Sentinel: No matching OPEN issues for those IDs.")
      ensures var ids := Dedup(TokenIds(args));
              args != [] && ids == [] ==>
                var phone := NormalizePhone(Some(args[0]));
                && (!Present(phone) ==> unchanged(store) && reply == Failed("Invalid phone or IDs"))
                && (Present(phone) ==>
                      && store.spamPhones == old(store.spamPhones) + {phone.value}
                      && store.issues == CloseWhere(old(store.issues), ByPhone(phone.value), Issues.Spam, now)
                      && reply == Answered("SPAM", true, "Sentinel: Marked SPAM " + phone.value + "."))
      ensures (reply, store.issues, store.spamPhones) == SpamEffect(old(store.issues), old(store.spamPhones), args, now)
      ensures store.nextId == old(store.nextId)
    {
      if args == [] {
        return Failed("Usage: Spam <id...>  OR  Spam <phone>");
      }
      var ids := ParseIds(args);
      if ids != [] {
        var marked := SpamIds(store, ids, now);
        if marked != [] {
          return Answered("SPAM", true, "Sentinel: Marked SPAM " + ShowIds(marked) + ".");
        }
        return Answered("SPAM", true, "Sentinel: No matching OPEN issues for those IDs.");
      }
      var phone := NormalizePhone(Some(args[0]));
      if !Present(phone) {
        return Failed("Invalid phone or IDs");
      }
      store.MarkSpam(phone.value);
      var n := store.ResolveByPhone(phone.value, Issues.Spam, now);
      reply := Answered("SPAM", true, "Sentinel: Marked SPAM " + phone.value + ".");
    }

    /** `handle_command`: tokenise, then run the command. */
    method HandleCommand(store: IssueStore, text: string, manager: Option<string>, now: int) returns (reply: Reply)
      requires store.Valid()
      modifies this, store
      ensures store.Valid()
      ensures Tokenize(text) == Blank ==> reply == Ignored("empty") && unchanged(this) && unchanged(store)
      ensures Tokenize(text) == NotACommand ==> reply == Ignored("not_a_command") && unchanged(this) && unchanged(store)
      ensures Tokenize(text).Command? && Tokenize(text).name in {"list", "more", "open"} ==> unchanged(store)
      ensures Tokenize(text).Command? && Tokenize(text).name in {"open", "note", "resolve", "spam"} ==> unchanged(this)
      ensures Tokenize(text).Command? && Tokenize(text).name == "open" ==>
                reply == OpenCommand(store.issues, Tokenize(text).args)
      ensures (reply, store.issues, store.spamPhones, offsets)
              == HandleEffect(old(store.issues), old(store.spamPhones), old(offsets), text, manager, now)
      ensures store.nextId == old(store.nextId)
    {
      var tokens := Tokenize(text);
      match tokens {
        case Blank => return Ignored("empty");
        case NotACommand => return Ignored("not_a_command");
        case Command(cmd, args) =>
          reply := RunCommand(store, cmd, args, manager, now);
      }
    }

    /** The command chain of `handle_command` once the first word is known. */
    method RunCommand(store: IssueStore, cmd: string, args: seq<string>, manager: Option<string>, now: int)
      returns (reply: Reply)
      requires store.Valid()
      modifies this, store
      ensures store.Valid()
      ensures cmd in {"list", "more", "open"} ==> unchanged(store)
      ensures cmd in {"open", "note", "resolve", "spam"} ==> unchanged(this)
      ensures cmd == "open" ==> reply == OpenCommand(store.issues, args)
      ensures (reply, store.issues, store.spamPhones, offsets)
              == CommandEffect(old(store.issues), old(store.spamPhones), old(offsets), cmd, args, manager, now)
      ensures store.nextId == old(store.nextId)
    {
      if cmd == "list" {
        reply := List(store, manager);
      } else if cmd == "more" {
        reply := More(store, manager);
      } else if cmd == "open" {
        reply := OpenCommand(store.issues, args);
      } else {
        reply := StoreCommand(store, cmd, args, now);
      }
    }

    /** The rest of the chain: Note, Resolve, and Spam for the last known
        name. */
    method StoreCommand(store: IssueStore, cmd: string, args: seq<string>, now: int) returns (reply: Reply)
      requires store.Valid()
      modifies store
      ensures store.Valid()
      ensures cmd == "note" ==>
                (reply, store.issues) == NoteEffect(old(store.issues), args, now) && store.spamPhones == old(store.spamPhones)
      ensures cmd == "resolve" ==>
                (reply, store.issues) == ResolveEffect(old(store.issues), args, now) && store.spamPhones == old(store.spamPhones)
      ensures cmd != "note" && cmd != "resolve" ==>
                (reply, store.issues, store.spamPhones) == SpamEffect(old(store.issues), old(store.spamPhones), args, now)
      ensures store.nextId == old(store.nextId)
    {
      if cmd == "note" {
        reply := Note(store, args, now);
      } else if cmd == "resolve" {
        reply := Resolve(store, args, now);
      } else {
        reply := Spam(store, args, now);
      }
    }

    /** `inbound_sms` once the payload fields, the contact name and the
        conversation id are known: outbound events are ignored, internal
        senders are treated as managers issuing commands, and customer texts
        go to the issue store. */
    method InboundSms(store: IssueStore, text: string, contactId: Option<string>, fromPhone: Option<string>,
                      contactName: Option<string>, direction: string, contactType: Option<string>,
                      conversationId: Option<string>, now: int)
      returns (outcome: SmsOutcome)
      requires store.Valid()
      modifies this, store
      ensures store.Valid()
      ensures direction in {"outbound", "outgoing"} ==>
                outcome == IgnoredOutbound && unchanged(this) && unchanged(store)
      ensures direction !in {"outbound", "outgoing"} && contactType == Some("internal") ==>
                var e := HandleEffect(old(store.issues), old(store.spamPhones), old(offsets), text, contactId, now);
                && store.issues == e.1 && store.spamPhones == e.2 && offsets == e.3
                && store.nextId == old(store.nextId)
                && outcome == if e.0.Answered? && e.0.ok && e.0.text != "" && Present(contactId) then Commanded(e.0)
                              else InternalNonCommand
      ensures direction !in {"outbound", "outgoing"} && contactType == Some("internal") && !Tokenize(text).Command? ==>
                outcome == InternalNonCommand && unchanged(this) && unchanged(store)
      ensures outcome.Commanded? ==> outcome.reply.Answered? && outcome.reply.ok && outcome.reply.text != ""
                                     && Present(contactId)
      ensures direction !in {"outbound", "outgoing"} && contactType != Some("internal") ==>
                var t := DedupTarget(old(store.issues), conversationId, fromPhone);
                && unchanged(this)
                && outcome.Recorded?
                && (outcome.created <==> t.None?)
                && store.spamPhones == old(store.spamPhones)
                && (t.Some? ==>
                      && outcome.id == old(store.issues)[t.value].id && store.nextId == old(store.nextId)
                      && store.issues == old(store.issues)[t.value := Touched(old(store.issues)[t.value], text, contactId,
                                                                              fromPhone, conversationId, contactName, now)])
                && (t.None? ==>
                      && outcome.id == old(store.nextId) && store.nextId == old(store.nextId) + 1
                      && store.issues == old(store.issues) + [NewSms(old(store.nextId), text, contactId, fromPhone,
                                                                     conversationId, contactName, now)])
    {
      if direction in {"outbound", "outgoing"} {
        return IgnoredOutbound;
      }
      if contactType == Some("internal") {
        var result := HandleCommand(store, text, contactId, now);
        if result.Answered? && result.ok && result.text != "" && Present(contactId) {
          return Commanded(result);
        }
        return InternalNonCommand;
      }
      var id, created := store.RecordCustomerSms(text, contactId, fromPhone, conversationId, contactName, now);
      outcome := Recorded(id, created);
    }
  }

  /** The ids of a list, as a set. */
  function IdSet(ids: seq<nat>): set<nat> {
    set x | x in ids
  }

  /** One step of the id loops: closing the next id after the ones already
      handled closes the ids so far plus this one, and it closes a row
      exactly when the table before the loop had that id OPEN. */
  lemma IdLoopStep(s0: seq<Issue>, ids: seq<nat>, i: nat, status: ClosedStatus, now: int)
    requires Distinct(ids) && i < |ids|
    ensures var s := CloseWhere(s0, ByIdIn(IdSet(ids[..i])), status, now);
            && CloseWhere(s, ById(ids[i]), status, now) == CloseWhere(s0, ByIdIn(IdSet(ids[..i + 1])), status, now)
            && (HasOpenId(s, ids[i]) <==> HasOpenId(s0, ids[i]))
            && OpenIds(s0, ids[..i + 1]) == OpenIds(s0, ids[..i]) + (if HasOpenId(s0, ids[i]) then [ids[i]] else [])
  {
    assert ids[..i + 1] == ids[..i] + [ids[i]];
    assert ids[..i + 1][..i] == ids[..i];
    assert IdSet(ids[..i + 1]) == IdSet(ids[..i]) + {ids[i]};
    assert ids[i] !in IdSet(ids[..i]);
    CloseWhereAddId(s0, IdSet(ids[..i]), ids[i], status, now);
    OpenIdUnchanged(s0, IdSet(ids[..i]), ids[i], status, now);
  }

  /** Closing the ids already handled leaves the row of a new id as it was,
      so whether it is OPEN is decided by the table before the loop. */
  lemma OpenIdUnchanged(s0: seq<Issue>, done: set<nat>, iid: nat, status: ClosedStatus, now: int)
    requires iid !in done
    ensures HasOpenId(CloseWhere(s0, ByIdIn(done), status, now), iid) == HasOpenId(s0, iid)
  {
    var s := CloseWhere(s0, ByIdIn(done), status, now);
    assert forall i :: 0 <= i < |s0| && s0[i].id == iid ==> s[i] == s0[i];
  }

  /** The prefix of every id is the whole list. */
  lemma TakeAll(ids: seq<nat>)
    ensures ids[..|ids|] == ids
  {
  }

  /** Adding a set to a union adds it to the last operand. */
  lemma UnionStep(a: set<string>, b: set<string>, c: set<string>, d: set<string>)
    requires d == b + c
    ensures a + b + c == a + d
  {
  }

  /** SpamPhonesStep at the `i`-th id of the loop. */
  lemma SpamPhonesAt(s0: seq<Issue>, s: seq<Issue>, ids: seq<nat>, i: nat, done: set<nat>,
                     status: ClosedStatus, now: int)
    requires IdsIncreasing(s0) && s == CloseWhere(s0, ByIdIn(done), status, now) && i < |ids|
    ensures PhonesOf(s0, ids[..i + 1]) == PhonesOf(s0, ids[..i]) + PhoneOfId(s, ids[i])
  {
    assert ids[..i + 1] == ids[..i] + [ids[i]];
    SpamPhonesStep(s0, s, ids[..i], ids[i], done, status, now);
  }

  /** One more id adds the phone of its row, if any, to the spam phones. */
  lemma SpamPhonesStep(s0: seq<Issue>, s: seq<Issue>, prev: seq<nat>, iid: nat, done: set<nat>,
                       status: ClosedStatus, now: int)
    requires IdsIncreasing(s0) && s == CloseWhere(s0, ByIdIn(done), status, now)
    ensures PhonesOf(s0, prev + [iid]) == PhonesOf(s0, prev) + PhoneOfId(s, iid)
  {
    var k := IndexOfId(s, iid);
    var extra := PhoneOfId(s, iid);
    forall p | p in PhonesOf(s0, prev + [iid]) ensures p in PhonesOf(s0, prev) + extra {
      var j :| 0 <= j < |s0| && s0[j].id in prev + [iid] && Present(s0[j].phone) && s0[j].phone.value == p;
      if s0[j].id !in prev {
        assert s[j].id == iid && s[j].phone == s0[j].phone;
        assert k.Some? && s[k.value].id == iid;
        assert k.value == j;
      }
    }
    forall p | p in PhonesOf(s0, prev) + extra ensures p in PhonesOf(s0, prev + [iid]) {
      if p !in PhonesOf(s0, prev) {
        var j := k.value;
        assert s0[j].id == iid && s0[j].phone == s[j].phone;
      }
    }
  }
}
