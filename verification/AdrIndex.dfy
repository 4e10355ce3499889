/** os/repo-tools/build-adr-index.py: the generated region between two sentinels of docs/adr/README.md,
    and the claims an ADR makes. */
module AdrIndex {
  import opened Common
  import opened Text

  // ------------------------------------------------------- the splice

  datatype Splice = Written(text: string) | NoSentinels | Unreadable

  // `s.split(p, 1)`.
  function Before(s: string, p: string): string {
    if Contains(s, p) then s[..Find(s, p)] else s
  }

  function After(s: string, p: string): string {
    var i := Find(s, p);
    if i >= 0 && i + |p| <= |s| then s[i + |p|..] else ""
  }

  // `main` from `README.read_text()` on: what is written, a complaint, or the failing unpacking of a
  // split that found no second half.
  function Regenerate(begin: string, end: string, text: string, rendered: string): Splice {
    if !Contains(text, begin) || !Contains(text, end) then NoSentinels
    else
      var rest := After(text, begin);
      if !Contains(rest, end) then Unreadable else Written(Before(text, begin) + rendered + After(rest, end))
  }

  // `--check`.
  predicate CheckPasses(begin: string, end: string, text: string, rendered: string) {
    Regenerate(begin, end, text, rendered) == Written(text)
  }

  // `render`'s frame.
  function Framed(begin: string, inner: string, end: string): string {
    begin + inner + end
  }

  lemma AtPrefix(a: string, b: string, p: string, k: nat)
    requires k + |p| <= |a|
    ensures At(a + b, p, k) <==> At(a, p, k)
  {
    assert (a + b)[k..k + |p|] == a[k..k + |p|];
  }

  lemma AtShift(a: string, b: string, p: string, k: nat)
    ensures At(a + b, p, |a| + k) <==> At(b, p, k)
  {
    if k + |p| <= |b| { assert (a + b)[|a| + k..|a| + k + |p|] == b[k..k + |p|]; }
  }

  lemma FindIs(s: string, p: string, i: nat)
    requires At(s, p, i) && forall k | 0 <= k < i :: !At(s, p, k)
    ensures Find(s, p) == i
  {}

  lemma SplitParts(s: string, p: string)
    requires Contains(s, p)
    ensures s == Before(s, p) + p + After(s, p)
    ensures p != "" ==> !Contains(Before(s, p), p)
  {
    var i := Find(s, p);
    assert s[i..i + |p|] == p;
    assert s == s[..i] + s[i..i + |p|] + s[i + |p|..];
    assert s == s[..i] + s[i..];
    forall k | 0 <= k <= i ensures p != "" ==> !At(s[..i], p, k) {
      if k + |p| <= i && p != "" { AtPrefix(s[..i], s[i..], p, k); }
    }
  }

  // The first occurrence of `p` behind `a` splits there, if none begins in `a`.
  lemma SplitsAt(a: string, p: string, b: string)
    requires forall k | 0 <= k < |a| :: !At(a + p + b, p, k)
    ensures Contains(a + p + b, p) && Before(a + p + b, p) == a && After(a + p + b, p) == b
  {
    var s := a + p + b;
    assert s[|a|..|a| + |p|] == p;
    FindIs(s, p, |a|);
    assert s[..|a|] == a && s[|a| + |p|..] == b;
  }

  // The opening sentinel is found again where it was.
  lemma BeginStays(text: string, begin: string, after: string)
    requires Contains(text, begin)
    ensures var again := Before(text, begin) + begin + after;
            Contains(again, begin) && Before(again, begin) == Before(text, begin) && After(again, begin) == after
  {
    var head := Before(text, begin);
    SplitParts(text, begin);
    forall k | 0 <= k < |head| ensures !At(head + begin + after, begin, k) {
      AtPrefix(head + begin, After(text, begin), begin, k);
      AtPrefix(head + begin, after, begin, k);
    }
    SplitsAt(head, begin, after);
  }

  // A pattern whose first character does not recur in it cannot straddle its own beginning.
  predicate Marked(p: string) {
    p != "" && p[0] !in p[1..]
  }

  lemma NoStraddle(s: string, p: string, k: nat, m: nat)
    requires Marked(p) && 0 < m < |p| && k + |p| <= |s| && s[k + m] == p[0]
    ensures !At(s, p, k)
  {
    assert p[m] == p[1..][m - 1];
    assert p[m] != p[0];
    assert s[k..k + |p|][m] == s[k + m];
  }

  // Before its own place the closing sentinel occurs exactly where it occurs in what was rendered.
  lemma EndBefore(inner: string, end: string, tail: string, k: nat)
    requires Marked(end) && k < |inner|
    ensures At(inner + end + tail, end, k) <==> At(inner, end, k)
  {
    var s := inner + end + tail;
    assert s == inner + (end + tail);
    if k + |end| <= |inner| {
      AtPrefix(inner, end + tail, end, k);
    } else if k + |end| <= |s| {
      assert s[|inner|] == end[0];
      NoStraddle(s, end, k, |inner| - k);
    }
  }

  lemma FoundBefore(s: string, p: string, k: nat)
    requires At(s, p, k)
    ensures 0 <= Find(s, p) <= k
  {}

  lemma EndSplit(inner: string, end: string, tail: string)
    requires Marked(end)
    ensures Contains(inner + end + tail, end)
    ensures !Contains(inner, end) ==> After(inner + end + tail, end) == tail
    ensures Contains(inner, end) ==> |After(inner + end + tail, end)| > |tail|
  {
    var s := inner + end + tail;
    assert s[|inner|..|inner| + |end|] == end;
    FoundBefore(s, end, |inner|);
    if Contains(inner, end) {
      var k := Find(inner, end);
      EndBefore(inner, end, tail, k);
      FoundBefore(s, end, k);
    } else {
      forall k | 0 <= k < |inner| ensures !At(s, end, k) { EndBefore(inner, end, tail, k); }
      SplitsAt(inner, end, tail);
    }
  }

  // Where the text outside the sentinels goes.
  lemma RegenerateKeeps(begin: string, end: string, text: string, rendered: string)
    requires Regenerate(begin, end, text, rendered).Written? && end != ""
    ensures var rest := After(text, begin);
            text == Before(text, begin) + begin + Before(rest, end) + end + After(rest, end)
            && Regenerate(begin, end, text, rendered).text == Before(text, begin) + rendered + After(rest, end)
            && !Contains(Before(rest, end), end)
  {
    var rest := After(text, begin);
    SplitParts(text, begin);
    SplitParts(rest, end);
    Regroup(Before(text, begin), begin, Before(rest, end), end, After(rest, end));
  }

  lemma Regroup(a: string, b: string, c: string, d: string, e: string)
    ensures a + b + (c + d + e) == a + b + c + d + e
    ensures a + (b + c + d) + e == (a + b + c) + d + e
    ensures a + (b + c + d) + e == a + b + (c + d + e)
  {}

  lemma RegenerateParts(begin: string, end: string, text: string, rendered: string)
    requires Contains(text, begin) && Contains(text, end) && Contains(After(text, begin), end)
    ensures Regenerate(begin, end, text, rendered)
            == Written(Before(text, begin) + rendered + After(After(text, begin), end))
  {}

  lemma SecondRun(begin: string, end: string, head: string, text: string, inner: string, tail: string)
    requires Marked(end) && Contains(text, begin) && head == Before(text, begin)
    ensures var rendered := Framed(begin, inner, end);
            Regenerate(begin, end, head + rendered + tail, rendered)
            == Written(head + rendered + After(inner + end + tail, end))
  {
    Regroup(head, begin, inner, end, tail);
    BeginStays(text, begin, inner + end + tail);
    EndSplit(inner, end, tail);
    EndSplit(head + begin + inner, end, tail);
    RegenerateParts(begin, end, head + begin + (inner + end + tail), Framed(begin, inner, end));
  }

  /** A run leaves the text before the opening sentinel and after the closing one as it was. Running once
      more writes the same text, so `--check` passes, if and only if what was rendered between the
      sentinels does not hold the closing one; if it does, every run makes the file longer. */
  lemma RegeneratedOnce(begin: string, end: string, text: string, inner: string)
    requires Marked(end) && Regenerate(begin, end, text, Framed(begin, inner, end)).Written?
    ensures var rendered := Framed(begin, inner, end); var once := Regenerate(begin, end, text, rendered).text;
            (CheckPasses(begin, end, once, rendered) <==> !Contains(inner, end))
            && (Contains(inner, end) ==> (Regenerate(begin, end, once, rendered).Written?
                                          && |Regenerate(begin, end, once, rendered).text| > |once|))
  {
    var rendered := Framed(begin, inner, end);
    var head, tail := Before(text, begin), After(After(text, begin), end);
    RegenerateKeeps(begin, end, text, rendered);
    SecondRun(begin, end, head, text, inner, tail);
    EndSplit(inner, end, tail);
  }

  // `p` stands in `s` behind `a`, for the first time, and `b` behind it.
  ghost predicate FirstAt(s: string, a: string, p: string, b: string) {
    s == a + p + b && forall k | 0 <= k < |a| :: !At(s, p, k)
  }

  lemma FirstExactly(s: string, p: string, a: string, b: string)
    ensures FirstAt(s, a, p, b) <==> Contains(s, p) && a == Before(s, p) && b == After(s, p)
  {
    if FirstAt(s, a, p, b) { SplitsAt(a, p, b); }
    if Contains(s, p) { SplitParts(s, p); }
  }

  /** What a run makes of a file: the complaint exactly when a sentinel is missing; what is written exactly
      when the closing one stands behind the first opening one, and then the text up to the one, the new
      region, and the text behind the first closing one after it; and a failing split otherwise. */
  lemma RegenerateExactly(begin: string, end: string, text: string, rendered: string, written: string)
    ensures var r := Regenerate(begin, end, text, rendered);
            (r.NoSentinels? <==> !Contains(text, begin) || !Contains(text, end))
            && (r == Written(written) <==>
                  Contains(text, end)
                  && exists a, middle, rest, b ::
                       FirstAt(text, a, begin, rest) && FirstAt(rest, middle, end, b) && written == a + rendered + b)
  {
    if Regenerate(begin, end, text, rendered) == Written(written) {
      var a, rest := Before(text, begin), After(text, begin);
      FirstExactly(text, begin, a, rest);
      FirstExactly(rest, end, Before(rest, end), After(rest, end));
    }
    if a, middle, rest, b :|
       FirstAt(text, a, begin, rest) && FirstAt(rest, middle, end, b) && written == a + rendered + b
    {
      FirstExactly(text, begin, a, rest);
      FirstExactly(rest, end, middle, b);
    }
  }

  /** Both sentinels being there is not enough: with the closing one only before the opening one, the
      complaint about missing sentinels is not made and the split behind it fails. */
  lemma EndOnlyBeforeBegin(begin: string, end: string, a: string, b: string, c: string, rendered: string)
    requires begin != "" && !Contains(c, end)
    requires forall k | 0 <= k < |a + end + b| :: !At(a + end + b + begin + c, begin, k)
    ensures Regenerate(begin, end, a + end + b + begin + c, rendered).Unreadable?
  {
    SplitsAt(a + end + b, begin, c);
    var text := a + end + b + begin + c;
    assert text[|a|..|a| + |end|] == end;
    FoundBefore(text, end, |a|);
  }

  // ------------------------------------------------------- what is rendered

  lemma {:induction false} JoinHolds(c: char, parts: seq<string>, p: string)
    requires p != "" && c !in p
    ensures Contains(Join([c], parts), p) <==> exists i :: 0 <= i < |parts| && Contains(parts[i], p)
  {
    if parts == [] {
      assert forall k :: !At("", p, k);
    } else if |parts| > 1 {
      JoinHolds(c, parts[1..], p);
      GluedHolds(parts[0], c, Join([c], parts[1..]), p);
      assert forall i | 0 <= i < |parts| - 1 :: parts[1..][i] == parts[i + 1];
      if i :| 0 <= i < |parts| && Contains(parts[i], p) {
        if i > 0 { assert Contains(parts[1..][i - 1], p); }
      }
    } else {
      assert (exists i :: 0 <= i < |parts| && Contains(parts[i], p)) <==> Contains(parts[0], p);
    }
  }

  lemma NotAcross(s: string, p: string, k: nat, m: nat)
    requires k <= m < k + |p| && m < |s| && s[m] !in p
    ensures !At(s, p, k)
  {
    if k + |p| <= |s| {
      assert s[k..k + |p|][m - k] == s[m];
      assert p[m - k] in p;
    }
  }

  lemma HoldsInFront(a: string, b: string, p: string)
    requires Contains(a, p)
    ensures Contains(a + b, p)
  {
    var k := Find(a, p);
    AtPrefix(a, b, p, k);
    FoundBefore(a + b, p, k);
  }

  lemma HoldsBehind(a: string, b: string, p: string)
    requires Contains(b, p)
    ensures Contains(a + b, p)
  {
    var k := Find(b, p);
    AtShift(a, b, p, k);
    FoundBefore(a + b, p, |a| + k);
  }

  lemma HoldsOneSide(a: string, c: char, b: string, p: string)
    requires c !in p && Contains(a + [c] + b, p)
    ensures Contains(a, p) || Contains(b, p)
  {
    var s := a + [c] + b;
    assert s == a + ([c] + b) && s == (a + [c]) + b;
    var k := Find(s, p);
    if k + |p| <= |a| {
      AtPrefix(a, [c] + b, p, k);
      FoundBefore(a, p, k);
    } else if k > |a| {
      AtShift(a + [c], b, p, k - |a| - 1);
      FoundBefore(b, p, k - |a| - 1);
    } else {
      NotAcross(s, p, k, |a|);
    }
  }

  lemma GluedHolds(a: string, c: char, b: string, p: string)
    requires p != "" && c !in p
    ensures Contains(a + [c] + b, p) <==> Contains(a, p) || Contains(b, p)
  {
    assert a + [c] + b == a + ([c] + b);
    if Contains(a, p) { HoldsInFront(a, [c] + b, p); }
    if Contains(b, p) { HoldsBehind(a + [c], b, p); }
    if Contains(a + [c] + b, p) { HoldsOneSide(a, c, b, p); }
  }

  // One row of the table: number and file, title, state, claim count, and where it stands.
  function Row(cells: seq<string>): string {
    Join("|", [""] + Padded(cells) + [""])
  }

  function Padded(cells: seq<string>): seq<string> {
    seq(|cells|, i requires 0 <= i < |cells| => " " + cells[i] + " ")
  }

  function Rows(records: seq<seq<string>>): seq<string> {
    seq(|records|, i requires 0 <= i < |records| => Row(records[i]))
  }

  // What `render` puts between the sentinels: fixed lines, then a row a record.
  function Inner(preamble: seq<string>, records: seq<seq<string>>): string {
    Join("\n", [""] + preamble + Rows(records) + ["", ""])
  }

  // Neither a bar nor a newline nor an outer blank is part of the sentinel.
  predicate Sentinel(end: string) {
    Marked(end) && '|' !in end && '\n' !in end && ' ' != end[0] && ' ' != end[|end| - 1]
  }

  lemma EmptyHoldsNot(p: string)
    requires p != ""
    ensures !Contains("", p)
  {}

  lemma BlankInFront(s: string, p: string)
    requires p != "" && p[0] != ' '
    ensures Contains(" " + s, p) <==> Contains(s, p)
  {
    if Contains(s, p) { HoldsBehind(" ", s, p); }
    if Contains(" " + s, p) {
      var k := Find(" " + s, p);
      assert (" " + s)[k..k + |p|][0] == (" " + s)[k];
      AtShift(" ", s, p, k - 1);
      FoundBefore(s, p, k - 1);
    }
  }

  lemma BlankBehind(s: string, p: string)
    requires p != "" && p[|p| - 1] != ' '
    ensures Contains(s + " ", p) <==> Contains(s, p)
  {
    if Contains(s, p) { HoldsInFront(s, " ", p); }
    if Contains(s + " ", p) {
      var k := Find(s + " ", p);
      assert (s + " ")[k..k + |p|][|p| - 1] == (s + " ")[k + |p| - 1];
      AtPrefix(s, " ", p, k);
      FoundBefore(s, p, k);
    }
  }

  lemma BlanksAround(cell: string, p: string)
    requires p != "" && p[0] != ' ' && p[|p| - 1] != ' '
    ensures Contains(" " + cell + " ", p) <==> Contains(cell, p)
  {
    BlankInFront(cell, p);
    BlankBehind(" " + cell, p);
  }

  lemma RowHolds(cells: seq<string>, end: string)
    requires Sentinel(end)
    ensures Contains(Row(cells), end) <==> exists i :: 0 <= i < |cells| && Contains(cells[i], end)
  {
    var parts := [""] + Padded(cells) + [""];
    JoinHolds('|', parts, end);
    EmptyHoldsNot(end);
    forall i | 0 <= i < |cells|
      ensures parts[i + 1] == " " + cells[i] + " " && (Contains(parts[i + 1], end) <==> Contains(cells[i], end))
    {
      BlanksAround(cells[i], end);
    }
    if i :| 0 <= i < |parts| && Contains(parts[i], end) { assert 0 < i <= |cells|; assert Contains(cells[i - 1], end); }
    if i :| 0 <= i < |cells| && Contains(cells[i], end) { assert Contains(parts[i + 1], end); }
  }

  lemma InnerHolds(preamble: seq<string>, records: seq<seq<string>>, end: string)
    requires Sentinel(end) && forall i | 0 <= i < |preamble| :: !Contains(preamble[i], end)
    ensures Contains(Inner(preamble, records), end)
            <==> exists i :: 0 <= i < |records| && Contains(Row(records[i]), end)
  {
    var lines := [""] + preamble + Rows(records) + ["", ""];
    JoinHolds('\n', lines, end);
    EmptyHoldsNot(end);
    var n := 1 + |preamble|;
    assert forall i | 1 <= i < n :: lines[i] == preamble[i - 1];
    assert forall i | 0 <= i < |records| :: lines[n + i] == Row(records[i]);
    HoldsAmong(lines, n, records, end);
  }

  lemma HoldsAmong(lines: seq<string>, n: nat, records: seq<seq<string>>, end: string)
    requires n + |records| <= |lines| && forall i | 0 <= i < |records| :: lines[n + i] == Row(records[i])
    requires forall i | 0 <= i < |lines| && !(n <= i < n + |records|) :: !Contains(lines[i], end)
    ensures (exists i :: 0 <= i < |lines| && Contains(lines[i], end))
       <==> (exists i :: 0 <= i < |records| && Contains(Row(records[i]), end))
  {
    if i :| 0 <= i < |lines| && Contains(lines[i], end) { assert Contains(Row(records[i - n]), end); }
    if i :| 0 <= i < |records| && Contains(Row(records[i]), end) { assert Contains(lines[n + i], end); }
  }

  /** Regenerating the index settles after one run, and `--check` passes from then on, if and only if no
      title, state or status text of any ADR holds the closing sentinel. */
  lemma IndexSettlesExactly(begin: string, end: string, text: string, preamble: seq<string>, records: seq<seq<string>>)
    requires Sentinel(end) && forall i | 0 <= i < |preamble| :: !Contains(preamble[i], end)
    requires Regenerate(begin, end, text, Framed(begin, Inner(preamble, records), end)).Written?
    ensures var rendered := Framed(begin, Inner(preamble, records), end);
            CheckPasses(begin, end, Regenerate(begin, end, text, rendered).text, rendered)
            <==> forall i, j | 0 <= i < |records| && 0 <= j < |records[i]| :: !Contains(records[i][j], end)
  {
    RegeneratedOnce(begin, end, text, Inner(preamble, records));
    InnerHolds(preamble, records, end);
    forall i | 0 <= i < |records|
      ensures Contains(Row(records[i]), end) <==> exists j :: 0 <= j < |records[i]| && Contains(records[i][j], end)
    {
      RowHolds(records[i], end);
    }
  }

  const END_TAIL := "!-- END " + "GENERATED " + "INDEX -->"
  const END := "<" + END_TAIL

  lemma TailPieces(c: char)
    requires c == '<' || c == '|' || c == '\n'
    ensures c !in "!-- END " && c !in "GENERATED " && c !in "INDEX -->"
  {}

  /** The generator's own closing sentinel is one the results above are about. */
  lemma EndIsSentinel()
    ensures Sentinel(END)
  {
    TailPieces('<');
    TailPieces('|');
    TailPieces('\n');
    assert END[0] == '<' && END[1..] == END_TAIL;
    assert END[|END| - 1] == "INDEX -->"[8];
  }

  // ------------------------------------------------------- claims

  datatype Claim = Claim(kind: string, arg: string, note: string)

  datatype Claims =
    | Ok(claims: seq<Claim>) | TwoBlocks | BadLine(line: string) | BadKind(kind: string) | NoArgument | NoClaims

  datatype Item = Good(claim: Claim) | Bad(why: Claims)

  // How lines are read: the block's head, a blank, a line beginning with a blank, an item.
  datatype Lines = Lines(head: string -> bool, blank: string -> bool, inset: string -> bool,
                         item: string -> Option<Item>)

  // An item's body and note, read as a claim of one of `kinds`.
  function ReadItem(kinds: set<string>, body: string, note: string): (it: Item)
    ensures it.Bad? ==> !it.why.Ok?
  {
    var i := Find(body, ":");
    var kind, arg := if i < 0 then body else body[..i], if 0 <= i < |body| then body[i + 1..] else "";
    if kind !in kinds then Bad(BadKind(kind)) else if arg == "" then Bad(NoArgument) else Good(Claim(kind, arg, note))
  }

  // The item read off a line: `cut` is the item pattern, giving body and note.
  function Itemized(kinds: set<string>, cut: Option<(string, string)>): Option<Item> {
    if cut.None? then None else Some(ReadItem(kinds, cut.value.0, cut.value.1))
  }

  // A bad item gives an error, not a list.
  ghost predicate Sane(r: Lines) {
    forall line | r.item(line).Some? && r.item(line).value.Bad? :: !r.item(line).value.why.Ok?
  }

  function Prefixed(claims: seq<Claim>, rest: Claims): Claims {
    if rest.Ok? then Ok(claims + rest.claims) else rest
  }

  lemma PrefixedOnce(claims: seq<Claim>, c: Claim, rest: Claims)
    ensures Prefixed(claims, Prefixed([c], rest)) == Prefixed(claims + [c], rest)
  {
    if rest.Ok? { assert claims + ([c] + rest.claims) == claims + [c] + rest.claims; }
  }

  // The claims of the block whose head has been read.
  function Under(r: Lines, lines: seq<string>): Claims {
    if lines == [] || r.blank(lines[0]) then Ok([])
    else
      var it := r.item(lines[0]);
      if it.None? then (if r.inset(lines[0]) then BadLine(lines[0]) else Ok([]))
      else if it.value.Bad? then it.value.why
      else Prefixed([it.value.claim], Under(r, lines[1..]))
  }

  function Heads(r: Lines, lines: seq<string>): set<nat> {
    set i | 0 <= i < |lines| && r.head(lines[i])
  }

  // `parse_claims`, said at once.
  ghost predicate Parsed(r: Lines, lines: seq<string>, result: Claims) {
    if Heads(r, lines) == {} then result == Ok([])
    else if exists i, j :: i in Heads(r, lines) && j in Heads(r, lines) && i != j then result == TwoBlocks
    else
      forall i | i in Heads(r, lines) ::
        result == (var under := Under(r, lines[i + 1..]); if under == Ok([]) then NoClaims else under)
  }

  method ReadBlock(r: Lines, lines: seq<string>, start: nat) returns (result: Claims)
    requires start <= |lines| && Sane(r)
    ensures result == Under(r, lines[start..])
  {
    var claims, at := [], start;
    while at < |lines|
      invariant start <= at <= |lines|
      invariant Under(r, lines[start..]) == Prefixed(claims, Under(r, lines[at..]))
    {
      var line := lines[at];
      assert lines[at..][0] == line && lines[at..][1..] == lines[at + 1..];
      if r.blank(line) { break; }
      var it := r.item(line);
      if it.None? {
        if r.inset(line) { return BadLine(line); }
        break;
      }
      if it.value.Bad? { return it.value.why; }
      PrefixedOnce(claims, it.value.claim, Under(r, lines[at + 1..]));
      claims, at := claims + [it.value.claim], at + 1;
    }
    return Ok(claims);
  }

  method FindHead(r: Lines, lines: seq<string>) returns (head: Option<nat>, two: bool)
    ensures two ==> exists i, j :: i in Heads(r, lines) && j in Heads(r, lines) && i != j
    ensures !two ==> Heads(r, lines) == if head.Some? then {head.value} else {}
  {
    head, two := None, false;
    for i := 0 to |lines|
      invariant head.None? ==> forall k | 0 <= k < i :: !r.head(lines[k])
      invariant head.Some? ==> head.value < i && forall k | 0 <= k < i :: r.head(lines[k]) <==> k == head.value
    {
      if r.head(lines[i]) {
        if head.Some? {
          assert i in Heads(r, lines) && head.value in Heads(r, lines);
          return head, true;
        }
        head := Some(i);
      }
    }
  }

  /** `parse_claims`: one pass for the head, one down the block. */
  method ParseClaims(r: Lines, lines: seq<string>) returns (result: Claims)
    requires Sane(r)
    ensures Parsed(r, lines, result)
  {
    var head, two := FindHead(r, lines);
    if two { return TwoBlocks; }
    if head.None? { return Ok([]); }
    assert head.value in Heads(r, lines);
    var claims := ReadBlock(r, lines, head.value + 1);
    return if claims == Ok([]) then NoClaims else claims;
  }

  // A claim as an ADR writes it.
  function Body(c: Claim): string {
    c.kind + ":" + c.arg
  }

  predicate Writable(kinds: set<string>, c: Claim) {
    c.kind in kinds && ':' !in c.kind && c.arg != ""
  }

  lemma FindIsKind(c: Claim)
    requires ':' !in c.kind
    ensures Find(Body(c), ":") == |c.kind|
  {
    var s := Body(c);
    forall k | 0 <= k < |c.kind| ensures !At(s, ":", k) { assert s[k] == c.kind[k] && c.kind[k] in c.kind; }
    assert s[|c.kind|..|c.kind| + 1] == ":";
    FindIs(s, ":", |c.kind|);
  }

  /** The kind and the argument of a claim come apart again at its first colon, whatever the argument holds. */
  lemma ItemBack(kinds: set<string>, c: Claim)
    requires Writable(kinds, c)
    ensures ReadItem(kinds, Body(c), c.note) == Good(c)
  {
    var s := Body(c);
    FindIsKind(c);
    assert s[..|c.kind|] == c.kind && s[|c.kind| + 1..] == c.arg;
  }

  lemma {:induction false} ItemsBack(r: Lines, claims: seq<Claim>, items: seq<string>, after: seq<string>)
    requires |items| == |claims|
    requires forall i | 0 <= i < |claims| :: !r.blank(items[i]) && r.item(items[i]) == Some(Good(claims[i]))
    requires after == [] || r.blank(after[0]) || (r.item(after[0]).None? && !r.inset(after[0]))
    ensures Under(r, items + after) == Ok(claims)
  {
    if items == [] {
      assert items + after == after;
    } else {
      var lines := items + after;
      assert lines[0] == items[0] && lines[1..] == items[1..] + after;
      ItemsBack(r, claims[1..], items[1..], after);
      assert [claims[0]] + claims[1..] == claims;
    }
  }

  // ------------------------------------------------------- the written form

  const HEAD := "- **Claims:**"
  const KINDS := {"path", "symbol", "absent", "nomatch"}

  predicate IsHead(line: string) {
    StartsWith(line, HEAD) && Blank(line[|HEAD|..])
  }

  predicate IsDash(c: char) {
    c == '-' || c == '\U{2014}'
  }

  // What follows the closing backquote of an item: nothing, or a dash and a note.
  function NoteOf(rest: string): Option<string> {
    if rest == "" then Some("")
    else AfterDash(LStrip(rest))
  }

  function AfterDash(s: string): Option<string> {
    if s != "" && IsDash(s[0]) then Some(Strip(s[1..])) else None
  }

  // The item pattern: blanks, a dash, the body in backquotes, perhaps a note. Gives body and note.
  function CutItem(line: string): Option<(string, string)> {
    var s := LStrip(line);
    if |s| == |line| || !StartsWith(s, "- `") then None else CutBody(s[3..])
  }

  function CutBody(s: string): Option<(string, string)> {
    var i := Find(s, "`");
    if i <= 0 then None else WithNote(s[..i], s[i + 1..])
  }

  function WithNote(body: string, rest: string): Option<(string, string)> {
    var note := NoteOf(rest);
    if note.None? then None else Some((body, note.value))
  }

  // Blanks, a dash of either kind, and the rest.
  ghost predicate Dashed(rest: string, pad: string, c: char, t: string) {
    Blank(pad) && (c == '-' || c == '\U{2014}') && rest == pad + ([c] + t)
  }

  lemma DashedNote(rest: string, pad: string, c: char, t: string)
    requires Dashed(rest, pad, c, t)
    ensures NoteOf(rest) == Some(Strip(t))
  {
    var s := [c] + t;
    assert s[0] == c && s[1..] == t && !IsSpace(c);
    LStripPad(pad, s);
  }

  lemma NoteSplit(rest: string) returns (pad: string, c: char, t: string)
    requires rest != "" && NoteOf(rest).Some?
    ensures Dashed(rest, pad, c, t)
  {
    var s;
    pad, s := Halves(rest);
    LongNote(rest, s);
    DashFirst(s);
    c, t := DashParts(rest, pad, s);
  }

  lemma LongNote(rest: string, s: string)
    requires rest != "" && s == LStrip(rest)
    ensures NoteOf(rest) == AfterDash(s)
  {}

  lemma DashParts(rest: string, pad: string, s: string) returns (c: char, t: string)
    requires rest == pad + s && Blank(pad) && s != "" && (s[0] == '-' || s[0] == '\U{2014}')
    ensures Dashed(rest, pad, c, t)
  {
    c, t := s[0], s[1..];
    assert s == [c] + t;
  }

  lemma DashFirst(s: string)
    requires AfterDash(s).Some?
    ensures s != "" && (s[0] == '-' || s[0] == '\U{2014}')
  {}

  /** A note is nothing, or what stands behind a dash, stripped. */
  lemma NoteExactly(rest: string, note: string)
    ensures NoteOf(rest) == Some(note) <==>
              (rest == "" && note == "") || exists pad, c, t :: Dashed(rest, pad, c, t) && note == Strip(t)
  {
    if NoteOf(rest) == Some(note) && rest != "" {
      var pad, c, t := NoteSplit(rest);
      DashedNote(rest, pad, c, t);
    }
    if pad, c, t :| Dashed(rest, pad, c, t) && note == Strip(t) { DashedNote(rest, pad, c, t); }
  }

  lemma BodyExactly(s: string, body: string, note: string)
    ensures CutBody(s) == Some((body, note)) <==>
              exists rest :: body != "" && '`' !in body && s == body + ("`" + rest) && NoteOf(rest) == Some(note)
  {
    if CutBody(s) == Some((body, note)) { var rest := BodySplit(s, body, note); }
    if rest :| body != "" && '`' !in body && s == body + ("`" + rest) && NoteOf(rest) == Some(note) {
      TickFound(body, rest);
      BodyIs(s, |body|, body, rest);
    }
  }

  lemma BodyIs(s: string, i: nat, body: string, rest: string)
    requires i == Find(s, "`") && i > 0 && body == s[..i] && rest == s[i + 1..]
    ensures CutBody(s) == WithNote(body, rest)
  {}

  lemma NoBody(s: string)
    ensures CutBody(s).Some? ==> Find(s, "`") > 0
  {}

  lemma BodySplit(s: string, body: string, note: string) returns (rest: string)
    requires CutBody(s) == Some((body, note))
    ensures body != "" && '`' !in body && s == body + ("`" + rest) && NoteOf(rest) == Some(note)
  {
    NoBody(s);
    var i := Find(s, "`");
    rest := s[i + 1..];
    BodyIs(s, i, s[..i], rest);
    NoTick(s, i);
    TickSplit(s, i);
  }

  lemma TickSplit(s: string, i: nat)
    requires At(s, "`", i)
    ensures i < |s| && s == s[..i] + ("`" + s[i + 1..])
  {
    assert s[i..i + 1] == "`";
    assert s == s[..i] + s[i..i + 1] + s[i + 1..];
  }

  lemma NoTick(s: string, i: nat)
    requires i <= |s| && forall k | 0 <= k < i :: !At(s, "`", k)
    ensures '`' !in s[..i]
  {
    forall k | 0 <= k < i ensures s[k] != '`' { TickAt(s, k); }
  }

  lemma TickAt(s: string, k: nat)
    requires k < |s|
    ensures At(s, "`", k) <==> s[k] == '`'
  {
    assert s[k..k + 1] == [s[k]];
  }

  lemma TickFound(body: string, rest: string)
    requires '`' !in body
    ensures var s := body + ("`" + rest); Find(s, "`") == |body| && s[..|body|] == body && s[|body| + 1..] == rest
  {
    var s := body + ("`" + rest);
    assert s[|body|..|body| + 1] == "`";
    forall k | 0 <= k < |body| ensures !At(s, "`", k) { assert s[k] == body[k] && s[k..k + 1][0] == s[k]; }
    FindIs(s, "`", |body|);
  }

  /** The item pattern, exactly: blanks, a dash and a blank, a body in backquotes, perhaps a dash and a note. */
  lemma ItemExactly(line: string, body: string, note: string)
    ensures CutItem(line) == Some((body, note)) <==>
              exists pad, s :: pad != "" && Blank(pad) && line == pad + ("- `" + s) && CutBody(s) == Some((body, note))
  {
    if CutItem(line) == Some((body, note)) { var pad, s := ItemParts(line); }
    if pad, s :| pad != "" && Blank(pad) && line == pad + ("- `" + s) && CutBody(s) == Some((body, note)) {
      ItemBehind(pad, s);
    }
  }

  lemma NoItem(line: string, t: string)
    requires t == LStrip(line)
    ensures CutItem(line).Some? ==> |t| < |line| && StartsWith(t, "- `")
  {}

  lemma ItemIs(line: string, t: string, s: string)
    requires t == LStrip(line) && |t| < |line| && StartsWith(t, "- `") && s == t[3..]
    ensures CutItem(line) == CutBody(s)
  {}

  lemma ItemParts(line: string) returns (pad: string, s: string)
    requires CutItem(line).Some?
    ensures pad != "" && Blank(pad) && line == pad + ("- `" + s) && CutBody(s) == CutItem(line)
  {
    var t;
    pad, t := Halves(line);
    NoItem(line, t);
    PrefixParts(t, "- `");
    s := t[3..];
    ItemIs(line, t, s);
  }

  lemma PrefixParts(s: string, p: string)
    requires StartsWith(s, p)
    ensures s == p + s[|p|..]
  {}

  lemma ItemBehind(pad: string, s: string)
    requires pad != "" && Blank(pad)
    ensures CutItem(pad + ("- `" + s)) == CutBody(s)
  {
    var t := "- `" + s;
    assert t[0] == '-' && t[..3] == "- `" && t[3..] == s;
    LStripPad(pad, t);
  }

  // The generator's own reading of lines.
  function Reading(): Lines {
    Lines(IsHead, (line: string) => Blank(line), (line: string) => StartsWith(line, " "),
          (line: string) => Itemized(KINDS, CutItem(line)))
  }

  lemma ReadingIsSane()
    ensures Sane(Reading())
  {}

  // `ParseClaims` as the generator runs it.
  method ParseFile(lines: seq<string>) returns (result: Claims)
    ensures Parsed(Reading(), lines, result)
  {
    ReadingIsSane();
    result := ParseClaims(Reading(), lines);
  }

  // An item line as an ADR writes it.
  function ItemLine(c: Claim): string {
    [' ', ' '] + (['-', ' ', '`'] + (Body(c) + (['`'] + NoteText(c.note))))
  }

  function NoteText(note: string): string {
    if note == "" then "" else [' '] + DashText(note)
  }

  function DashText(note: string): string {
    ['\U{2014}'] + ([' '] + note)
  }

  // A claim that can be written: of a known kind, without backquotes, its note without outer blanks.
  predicate Printable(c: Claim) {
    Writable(KINDS, c) && '`' !in Body(c) && Strip(c.note) == c.note
  }

  lemma NoteBack(note: string)
    requires Strip(note) == note
    ensures NoteOf(NoteText(note)) == Some(note)
  {
    if note != "" {
      DashBack(note);
      SpacedDash(NoteText(note), DashText(note));
    }
  }

  lemma DashBack(note: string)
    requires Strip(note) == note
    ensures AfterDash(DashText(note)) == Some(note)
  {
    assert DashText(note)[1..] == [' '] + note;
    BlankFirst([' '] + note, note);
  }

  lemma SpacedDash(text: string, dash: string)
    requires text == [' '] + dash && dash != "" && IsDash(dash[0])
    ensures NoteOf(text) == AfterDash(dash)
  {
    DashIsNoBlank(dash[0]);
    LStripFirst(text, dash);
  }

  lemma DashIsNoBlank(c: char)
    requires IsDash(c)
    ensures !IsSpace(c)
  {}

  lemma LStripFirst(s: string, t: string)
    requires s == [' '] + t && t != "" && !IsSpace(t[0])
    ensures LStrip(s) == t && s != ""
  {
    assert s[0] == ' ' && s[1..] == t;
  }

  // A blank in front is stripped.
  lemma BlankFirst(s: string, t: string)
    requires s == [' '] + t
    ensures LStrip(s) == LStrip(t) && Strip(s) == Strip(t)
    ensures t != "" && !IsSpace(t[0]) ==> LStrip(s) == t
  {
    assert s[0] == ' ' && s[1..] == t;
  }

  lemma BodyBack(body: string, tail: string)
    requires '`' !in body && body != ""
    ensures var s := body + (['`'] + tail); Find(s, "`") == |body| && s[..|body|] == body && s[|body| + 1..] == tail
  {
    var s := body + (['`'] + tail);
    FindTick(s, |body|);
  }

  lemma FindTick(s: string, n: nat)
    requires n < |s| && s[n] == '`' && forall k | 0 <= k < n :: s[k] != '`'
    ensures Find(s, "`") == n
  {
    forall k | 0 <= k < n ensures !At(s, "`", k) { assert s[k..k + 1] == [s[k]]; }
    assert s[n..n + 1] == "`";
    FindIs(s, "`", n);
  }

  /** An item line gives back its claim. */
  lemma ItemLineBack(c: Claim)
    requires Printable(c)
    ensures CutItem(ItemLine(c)) == Some((Body(c), c.note))
    ensures !Blank(ItemLine(c)) && !IsHead(ItemLine(c))
    ensures Itemized(KINDS, CutItem(ItemLine(c))) == Some(Good(c))
  {
    var body := Body(c) + (['`'] + NoteText(c.note));
    NoteBack(c.note);
    BodyCut(Body(c), c.note);
    Indented(body);
    ItemBack(KINDS, c);
  }

  lemma BodyCut(body: string, note: string)
    requires '`' !in body && body != "" && NoteOf(NoteText(note)) == Some(note)
    ensures CutBody(body + (['`'] + NoteText(note))) == Some((body, note))
  {
    BodyBack(body, NoteText(note));
  }

  lemma Indented(body: string)
    ensures var line := [' ', ' '] + (['-', ' ', '`'] + body);
            CutItem(line) == CutBody(body) && !Blank(line) && !IsHead(line)
  {
    var s := ['-', ' ', '`'] + body;
    var line := [' ', ' '] + s;
    assert line == [' '] + ([' '] + s);
    Opens(s, body);
    IndentedItem(line, s);
    NoHead(line);
  }

  lemma IndentedItem(line: string, s: string)
    requires line == [' '] + ([' '] + s) && StartsWith(s, "- `") && s[0] == '-'
    ensures CutItem(line) == CutBody(s[3..]) && !Blank(line) && line != "" && line[0] == ' '
  {
    TwoBlanks(line, [' '] + s, s);
    CutBehind(line, s);
  }

  lemma TwoBlanks(line: string, rest: string, s: string)
    requires line == [' '] + rest && rest == [' '] + s && s != "" && !IsSpace(s[0])
    ensures LStrip(line) == s
  {
    BlankFirst(rest, s);
    BlankFirst(line, rest);
  }

  lemma CutBehind(line: string, s: string)
    requires LStrip(line) == s && |s| < |line| && StartsWith(s, "- `")
    ensures CutItem(line) == CutBody(s[3..]) && !Blank(line)
  {}

  lemma Opens(s: string, body: string)
    requires s == ['-', ' ', '`'] + body
    ensures StartsWith(s, "- `") && s[3..] == body
  {
    assert s[..3] == "- `";
  }

  lemma NoPrefix(line: string, p: string)
    requires line != "" && p != "" && line[0] != p[0]
    ensures !StartsWith(line, p)
  {
    assert |p| <= |line| ==> line[..|p|][0] == line[0];
  }

  lemma NoHead(line: string)
    requires line != "" && line[0] == ' '
    ensures !IsHead(line)
  {
    NoPrefix(line, HEAD);
  }

  function ItemLines(claims: seq<Claim>): (lines: seq<string>)
    ensures |lines| == |claims| && forall i | 0 <= i < |claims| :: lines[i] == ItemLine(claims[i])
  {
    Mapped(ItemLine, claims)
  }

  // Nothing more, a blank line, or text at the margin that is no item.
  predicate EndsBlock(after: seq<string>) {
    after == [] || Blank(after[0]) || (CutItem(after[0]).None? && !StartsWith(after[0], " "))
  }

  /** A file with one block of claims, written one an item under its head and ended by a blank line, by
      text at the margin or by the end of the file, reads back as those claims in order. */
  lemma ClaimsBack(before: seq<string>, head: string, claims: seq<Claim>, after: seq<string>)
    requires IsHead(head) && claims != [] && forall i | 0 <= i < |claims| :: Printable(claims[i])
    requires forall i | 0 <= i < |before| :: !IsHead(before[i])
    requires forall i | 0 <= i < |after| :: !IsHead(after[i])
    requires EndsBlock(after)
    ensures Parsed(Reading(), before + [head] + (ItemLines(claims) + after), Ok(claims))
  {
    BlockBack(claims, after);
    NoItemHeads(claims);
    ClaimsUnder(before, head, ItemLines(claims), after, claims);
  }

  lemma NoItemHeads(claims: seq<Claim>)
    requires forall i | 0 <= i < |claims| :: Printable(claims[i])
    ensures forall i | 0 <= i < |claims| :: !IsHead(ItemLines(claims)[i])
  {
    ItemsRead(claims);
  }

  lemma ClaimsUnder(before: seq<string>, head: string, items: seq<string>, after: seq<string>, claims: seq<Claim>)
    requires IsHead(head) && (forall i | 0 <= i < |before| :: !IsHead(before[i]))
    requires (forall i | 0 <= i < |items| :: !IsHead(items[i])) && (forall i | 0 <= i < |after| :: !IsHead(after[i]))
    requires Under(Reading(), items + after) == Ok(claims) && claims != []
    ensures Parsed(Reading(), before + [head] + (items + after), Ok(claims))
  {
    OneHead(before, head, items, after);
    OneBlock(Reading(), before, head, items + after, claims);
  }

  lemma BlockBack(claims: seq<Claim>, after: seq<string>)
    requires forall i | 0 <= i < |claims| :: Printable(claims[i])
    requires EndsBlock(after)
    ensures Under(Reading(), ItemLines(claims) + after) == Ok(claims)
  {
    ItemsRead(claims);
    ItemsBack(Reading(), claims, ItemLines(claims), after);
  }

  lemma ItemsRead(claims: seq<Claim>)
    requires forall i | 0 <= i < |claims| :: Printable(claims[i])
    ensures forall i | 0 <= i < |claims| ::
              !Reading().blank(ItemLines(claims)[i]) && !IsHead(ItemLines(claims)[i])
              && Reading().item(ItemLines(claims)[i]) == Some(Good(claims[i]))
  {
    forall i | 0 <= i < |claims|
      ensures !Reading().blank(ItemLines(claims)[i]) && !IsHead(ItemLines(claims)[i])
              && Reading().item(ItemLines(claims)[i]) == Some(Good(claims[i]))
    {
      ItemLineBack(claims[i]);
    }
  }

  lemma OneBlock(r: Lines, before: seq<string>, head: string, block: seq<string>, claims: seq<Claim>)
    requires Heads(r, before + [head] + block) == {|before|} && Under(r, block) == Ok(claims) && claims != []
    ensures Parsed(r, before + [head] + block, Ok(claims))
  {
    var lines := before + [head] + block;
    assert lines[|before| + 1..] == block;
    assert |before| in Heads(r, lines);
  }

  lemma OneHead(before: seq<string>, head: string, items: seq<string>, after: seq<string>)
    requires IsHead(head) && (forall i | 0 <= i < |before| :: !IsHead(before[i]))
    requires (forall i | 0 <= i < |items| :: !IsHead(items[i])) && (forall i | 0 <= i < |after| :: !IsHead(after[i]))
    ensures Heads(Reading(), before + [head] + (items + after)) == {|before|}
  {
    var lines := before + [head] + (items + after);
    forall i | 0 <= i < |lines| ensures IsHead(lines[i]) <==> i == |before| {
      if i < |before| {
        assert lines[i] == before[i];
      } else if i > |before| && i - |before| - 1 < |items| {
        assert lines[i] == items[i - |before| - 1];
      } else if i > |before| {
        assert lines[i] == after[i - |before| - 1 - |items|];
      }
    }
  }
}
