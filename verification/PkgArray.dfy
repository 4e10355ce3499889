/** The array reader of os/repo-tools/check-fork-derivation.py: `_array` scans a PKGBUILD array to its
    matching parenthesis, drops comments, and cuts what is left into entries.

    `ReadsPrinted` is the round trip: a printed array reads back whatever follows it, and
    `ArrayRoundTrip` says for which words the words themselves come back. */
module PkgArray {
  import opened Common
  import opened Text

  // ------------------------------------------------------- the scanner

  predicate Quote(c: char) {
    c == '"' || c == '\''
  }

  predicate Gap(c: char) {
    c == ' ' || c == '\t' || c == '\n'
  }

  // A comment may begin here: nothing was kept so far, or a blank was kept last.
  predicate Loose(buf: string) {
    buf == "" || Gap(buf[|buf| - 1])
  }

  // From the next newline on, or nothing.
  function DropLine(s: string): (r: string)
    ensures |r| <= |s|
    ensures s != "" && s[0] != '\n' ==> |r| < |s|
  {
    if s == "" || s[0] == '\n' then s else DropLine(s[1..])
  }

  // What the scan keeps of `s`, inside `depth` parentheses and maybe a quotation, after keeping `buf`.
  function Scan(s: string, depth: nat, quote: Option<char>, buf: string): string
    decreases |s|
  {
    if s == "" || depth == 0 then buf
    else
      var c := s[0];
      if quote.Some? then Scan(s[1..], depth, if c == quote.value then None else quote, buf + [c])
      else if Quote(c) then Scan(s[1..], depth, Some(c), buf + [c])
      else if c == '#' && Loose(buf) then Scan(DropLine(s), depth, None, buf)
      else if c == '(' then Scan(s[1..], depth + 1, None, buf + [c])
      else if c == ')' && depth == 1 then buf
      else if c == ')' then Scan(s[1..], depth - 1, None, buf + [c])
      else Scan(s[1..], depth, None, buf + [c])
  }

  lemma {:induction false} DropLineAt(s: string, j: nat)
    requires j <= |s| && (j < |s| ==> s[j] == '\n') && forall k | 0 <= k < j :: s[k] != '\n'
    ensures DropLine(s) == s[j..]
  {
    if j > 0 {
      assert s[1..][j - 1..] == s[j..];
      DropLineAt(s[1..], j - 1);
    }
  }

  // The inner loop of `_array`: past a comment, up to the end of its line.
  method SkipComment(text: string, i: nat) returns (j: nat)
    requires i < |text| && text[i] != '\n'
    ensures i < j <= |text|
    ensures text[j..] == DropLine(text[i..])
  {
    j := i + 1;
    while j < |text| && text[j] != '\n'
      invariant i < j <= |text|
      invariant forall k | i <= k < j :: text[k] != '\n'
    {
      j := j + 1;
    }
    DropLineAt(text[i..], j - i);
    assert text[i..][j - i..] == text[j..];
  }

  /** The loop of `_array`, from just behind the opening parenthesis. */
  method ScanArray(text: string, start: nat) returns (buf: string)
    requires start <= |text|
    ensures buf == Scan(text[start..], 1, None, "")
  {
    var i, depth, quote := start, 1, None;
    buf := "";
    while i < |text| && depth > 0
      invariant start <= i <= |text|
      invariant depth >= 0
      invariant Scan(text[start..], 1, None, "") == Scan(text[i..], depth, quote, buf)
      decreases |text| - i
    {
      var c := text[i];
      assert text[i..][0] == c && text[i..][1..] == text[i + 1..];
      if quote.Some? {
        if c == quote.value { quote := None; }
      } else if Quote(c) {
        quote := Some(c);
      } else if c == '#' && Loose(buf) {
        i := SkipComment(text, i);
        continue;
      } else if c == '(' {
        depth := depth + 1;
      } else if c == ')' {
        depth := depth - 1;
        if depth == 0 { break; }
      }
      buf := buf + [c];
      i := i + 1;
    }
    assert i == |text| ==> text[i..] == "";
  }

  // ------------------------------------------------------- the entries

  function IndexOfChar(s: string, c: char): (i: Option<nat>)
    ensures i.Some? ==> i.value < |s| && s[i.value] == c && forall k | 0 <= k < i.value :: s[k] != c
    ensures i.None? ==> forall k | 0 <= k < |s| :: s[k] != c
  {
    if s == "" then None
    else if s[0] == c then Some(0)
    else
      var r := IndexOfChar(s[1..], c);
      assert forall k | 1 <= k < |s| :: s[k] == s[1..][k - 1];
      if r.None? then None else Some(r.value + 1)
  }

  // `re.findall` of a double-quoted, a single-quoted or an unbroken run of characters.
  function Tokens(s: string): seq<string>
    decreases |s|
  {
    if s == "" then []
    else if IsSpace(s[0]) then Tokens(s[1..])
    else
      var close := if Quote(s[0]) then IndexOfChar(s[1..], s[0]) else None;
      if close.Some? then [s[..close.value + 2]] + Tokens(s[close.value + 2..])
      else [Word(s)] + Tokens(s[|Word(s)|..])
  }

  // `t.strip("\"'")`.
  function Unquoted(t: string): string
    decreases |t|
  {
    if t == "" then ""
    else if Quote(t[0]) then Unquoted(t[1..])
    else if Quote(t[|t| - 1]) then Unquoted(t[..|t| - 1])
    else t
  }

  function Entries(inner: string): seq<string> {
    var tokens := Tokens(inner);
    seq(|tokens|, i requires 0 <= i < |tokens| => Unquoted(tokens[i]))
  }

  // The line at `k` opens the array `field`; the length of its head, or 0.
  function HeadAt(text: string, field: string, k: nat): (n: nat)
    ensures n > 0 ==> k + n <= |text|
  {
    if k > 0 && (k > |text| || text[k - 1] != '\n') then 0
    else if At(text, field + "=(", k) then |field| + 2
    else if At(text, field + "+=(", k) then |field| + 3
    else 0
  }

  // Where the first such line's head ends.
  function Locate(text: string, field: string, k: nat): (r: Option<nat>)
    ensures r.Some? ==> r.value <= |text|
    decreases |text| - k
  {
    if HeadAt(text, field, k) > 0 then Some(k + HeadAt(text, field, k))
    else if k >= |text| then None
    else Locate(text, field, k + 1)
  }

  /** `_array`. */
  method Array(text: string, field: string) returns (entries: Option<seq<string>>)
    ensures entries == ArrayOf(text, field)
  {
    var start := Locate(text, field, 0);
    if start.None? { return None; }
    var inner := ScanArray(text, start.value);
    return Some(Entries(inner));
  }

  function ArrayOf(text: string, field: string): Option<seq<string>> {
    var start := Locate(text, field, 0);
    if start.None? then None else Some(Entries(Scan(text[start.value..], 1, None, "")))
  }

  // ------------------------------------------------------- printing an array

  // An entry as it is written.
  datatype Entry = Bare(word: string) | Quoted(mark: char, word: string)

  datatype Item = Blank(c: char) | Comment(text: string) | Put(entry: Entry)

  predicate GoodEntry(e: Entry) {
    match e
    case Bare(w) =>
      w != "" && w[0] != '#' && (forall i | 0 <= i < |w| :: !IsSpace(w[i]) && w[i] != '"' && w[i] != '\'')
          && Nests(w, 0)
    case Quoted(q, w) => (q == '"' || q == '\'') && q !in w
  }

  // Every parenthesis of `w` is closed in `w`, and `depth` more are closed than opened.
  predicate Nests(w: string, depth: nat) {
    if w == "" then depth == 0
    else if w[0] == '(' then Nests(w[1..], depth + 1)
    else if w[0] == ')' then depth > 0 && Nests(w[1..], depth - 1)
    else Nests(w[1..], depth)
  }

  predicate GoodItem(it: Item) {
    match it
    case Blank(c) => c == ' ' || c == '\t' || c == '\n'
    case Comment(text) => '\n' !in text
    case Put(e) => GoodEntry(e)
  }

  // After an entry comes a blank or the end; everything else may follow a blank or a comment.
  predicate GoodBody(items: seq<Item>) {
    items != [] ==>
      GoodItem(items[0]) && GoodBody(items[1..]) && (items[0].Put? && |items| > 1 ==> items[1].Blank?)
  }

  function PrintEntry(e: Entry): string {
    match e
    case Bare(w) => w
    case Quoted(q, w) => [q] + w + [q]
  }

  function PrintItem(it: Item): string {
    match it
    case Blank(c) => [c]
    case Comment(text) => "#" + text + "\n"
    case Put(e) => PrintEntry(e)
  }

  function PrintBody(items: seq<Item>): string {
    if items == [] then "" else PrintItem(items[0]) + PrintBody(items[1..])
  }

  // What the scan keeps of an item.
  function KeptItem(it: Item): string {
    if it.Comment? then "\n" else PrintItem(it)
  }

  function Kept(items: seq<Item>): string {
    if items == [] then "" else KeptItem(items[0]) + Kept(items[1..])
  }

  function EntriesOf(items: seq<Item>): seq<Entry> {
    if items == [] then []
    else (if items[0].Put? then [items[0].entry] else []) + EntriesOf(items[1..])
  }

  // ------------------------------------------------------- the scan of a printed array

  lemma {:induction false} ScanBare(w: string, rest: string, depth: nat, buf: string)
    requires w != "" ==> w[0] != '#' || !Loose(buf)
    requires (forall i | 0 <= i < |w| :: !IsSpace(w[i]) && w[i] != '"' && w[i] != '\'') && Nests(w, depth)
    ensures Scan(w + rest, depth + 1, None, buf) == Scan(rest, 1, None, buf + w)
  {
    if w == "" {
      assert w + rest == rest && buf + w == buf;
    } else {
      var c, b := w[0], buf + [w[0]];
      assert (w + rest)[0] == c && (w + rest)[1..] == w[1..] + rest;
      assert b[|b| - 1] == c && !Gap(c);
      assert b + w[1..] == buf + w;
      ScanBare(w[1..], rest, if c == '(' then depth + 1 else if c == ')' then depth - 1 else depth, b);
    }
  }

  lemma {:induction false} ScanQuoted(q: char, w: string, rest: string, buf: string)
    requires Quote(q) && q !in w
    ensures Scan(w + [q] + rest, 1, Some(q), buf) == Scan(rest, 1, None, buf + w + [q])
  {
    var s := w + [q] + rest;
    if w == "" {
      assert s[0] == q && s[1..] == rest && buf + w + [q] == buf + [q];
    } else {
      assert s[0] == w[0] && s[1..] == w[1..] + [q] + rest;
      assert buf + [w[0]] + w[1..] + [q] == buf + w + [q];
      ScanQuoted(q, w[1..], rest, buf + [w[0]]);
    }
  }

  lemma ScanBlank(c: char, rest: string, buf: string)
    requires Gap(c)
    ensures Scan([c] + rest, 1, None, buf) == Scan(rest, 1, None, buf + [c])
  {
    assert ([c] + rest)[0] == c && ([c] + rest)[1..] == rest;
  }

  lemma ScanComment(text: string, rest: string, buf: string)
    requires '\n' !in text && Loose(buf)
    ensures Scan("#" + text + "\n" + rest, 1, None, buf) == Scan(rest, 1, None, buf + "\n")
  {
    var s, t := "#" + text + "\n" + rest, "\n" + rest;
    DropLineAt(s, |text| + 1);
    assert s[|text| + 1..] == t && s[0] == '#';
    assert Scan(s, 1, None, buf) == Scan(t, 1, None, buf);
    assert t == ['\n'] + rest;
    ScanBlank('\n', rest, buf);
  }

  lemma ScanQuotation(q: char, w: string, rest: string, buf: string)
    requires Quote(q) && q !in w
    ensures Scan([q] + w + [q] + rest, 1, None, buf) == Scan(rest, 1, None, buf + ([q] + w + [q]))
  {
    var s := [q] + w + [q] + rest;
    assert s[0] == q && s[1..] == w + [q] + rest;
    ScanQuoted(q, w, rest, buf + [q]);
    assert buf + [q] + w + [q] == buf + ([q] + w + [q]);
  }

  lemma ScanItem(it: Item, rest: string, buf: string)
    requires GoodItem(it) && (it.Blank? || Loose(buf))
    ensures Scan(PrintItem(it) + rest, 1, None, buf) == Scan(rest, 1, None, buf + KeptItem(it))
  {
    match it {
      case Blank(c) => ScanBlank(c, rest, buf);
      case Comment(text) => ScanComment(text, rest, buf);
      case Put(Bare(w)) => ScanBare(w, rest, 0, buf);
      case Put(Quoted(q, w)) => ScanQuotation(q, w, rest, buf);
    }
  }

  lemma KeptItemEnds(it: Item)
    requires GoodItem(it)
    ensures KeptItem(it) != "" && (!it.Put? ==> Loose(KeptItem(it)))
  {}

  lemma PrintSplit(items: seq<Item>, rest: string)
    requires items != []
    ensures PrintBody(items) + ")" + rest == PrintItem(items[0]) + (PrintBody(items[1..]) + ")" + rest)
  {}

  lemma LooseAfter(buf: string, kept: string)
    requires kept != ""
    ensures Loose(buf + kept) <==> Loose(kept)
  {
    assert (buf + kept)[|buf + kept| - 1] == kept[|kept| - 1];
  }

  lemma ScanClosed(rest: string, buf: string)
    ensures Scan(")" + rest, 1, None, buf) == buf
  {
    assert (")" + rest)[0] == ')';
  }

  lemma ScanStep(it: Item, after: string, text: string, buf: string, kept: string)
    requires GoodItem(it) && (it.Blank? || Loose(buf)) && text == PrintItem(it) + after && kept == KeptItem(it)
    ensures Scan(text, 1, None, buf) == Scan(after, 1, None, buf + kept)
    ensures !it.Put? ==> Loose(buf + kept)
  {
    KeptItemEnds(it);
    ScanItem(it, after, buf);
    LooseAfter(buf, kept);
  }

  // `text` reads to its end with `kept` more kept.
  ghost predicate Yields(text: string, buf: string, kept: string) {
    Scan(text, 1, None, buf) == buf + kept
  }

  lemma YieldsStep(it: Item, after: string, text: string, buf: string, more: string)
    requires GoodItem(it) && (it.Blank? || Loose(buf)) && text == PrintItem(it) + after
    requires Yields(after, buf + KeptItem(it), more)
    ensures Yields(text, buf, KeptItem(it) + more)
  {
    var kept := KeptItem(it);
    ScanStep(it, after, text, buf, kept);
    Regroup(buf, kept, more);
  }

  lemma {:induction false} ScanBody(items: seq<Item>, rest: string, buf: string)
    requires GoodBody(items) && (items == [] || items[0].Blank? || Loose(buf))
    ensures Yields(PrintBody(items) + ")" + rest, buf, Kept(items))
  {
    if items == [] {
      assert PrintBody(items) + ")" + rest == ")" + rest && buf + Kept(items) == buf;
      ScanClosed(rest, buf);
    } else {
      PrintSplit(items, rest);
      KeptItemEnds(items[0]);
      LooseAfter(buf, KeptItem(items[0]));
      ScanBody(items[1..], rest, buf + KeptItem(items[0]));
      YieldsStep(items[0], PrintBody(items[1..]) + ")" + rest, PrintBody(items) + ")" + rest, buf, Kept(items[1..]));
    }
  }

  lemma {:induction false} WordThen(w: string, rest: string)
    requires (forall i | 0 <= i < |w| :: !IsSpace(w[i])) && (rest == "" || IsSpace(rest[0]))
    ensures Word(w + rest) == w
  {
    var s := w + rest;
    if w != "" {
      assert s[0] == w[0] && s[1..] == w[1..] + rest;
      WordThen(w[1..], rest);
    } else { assert s == rest; }
  }

  lemma TokenOfBare(w: string, rest: string)
    requires GoodEntry(Bare(w)) && (rest == "" || IsSpace(rest[0]))
    ensures Tokens(w + rest) == [w] + Tokens(rest)
  {
    var s := w + rest;
    assert s[0] == w[0];
    WordThen(w, rest);
    assert s[|w|..] == rest;
  }

  lemma CloseOf(q: char, w: string, rest: string)
    requires q !in w
    ensures IndexOfChar(w + [q] + rest, q) == Some(|w|)
  {
    var s := w + [q] + rest;
    assert s[|w|] == q;
    assert forall k | 0 <= k < |w| :: s[k] == w[k];
  }

  lemma TokenOfQuoted(q: char, w: string, rest: string)
    requires GoodEntry(Quoted(q, w))
    ensures Tokens([q] + w + [q] + rest) == [[q] + w + [q]] + Tokens(rest)
  {
    var s := [q] + w + [q] + rest;
    assert s[0] == q && s[1..] == w + [q] + rest;
    CloseOf(q, w, rest);
    assert s[..|w| + 2] == [q] + w + [q] && s[|w| + 2..] == rest;
  }

  function Printed(entries: seq<Entry>): seq<string> {
    if entries == [] then [] else [PrintEntry(entries[0])] + Printed(entries[1..])
  }

  lemma TokensSkip(c: char, rest: string)
    requires IsSpace(c)
    ensures Tokens([c] + rest) == Tokens(rest)
  {
    assert ([c] + rest)[0] == c && ([c] + rest)[1..] == rest;
  }

  lemma EntriesSkip(items: seq<Item>)
    requires items != []
    ensures EntriesOf(items) == if items[0].Put? then [items[0].entry] + EntriesOf(items[1..])
            else EntriesOf(items[1..])
  {}

  lemma {:induction false} TokensOfBody(items: seq<Item>)
    requires GoodBody(items)
    ensures Tokens(Kept(items)) == Printed(EntriesOf(items))
  {
    if items != [] {
      TokensOfBody(items[1..]);
      EntriesSkip(items);
      var rest := Kept(items[1..]);
      match items[0] {
        case Blank(c) =>
          TokensSkip(c, rest);
        case Comment(_) =>
          TokensSkip('\n', rest);
        case Put(e) =>
          assert rest == "" || IsSpace(rest[0]);
          if e.Bare? { TokenOfBare(e.word, rest); } else { TokenOfQuoted(e.mark, e.word, rest); }
      }
    }
  }

  // ------------------------------------------------------- the round trip

  // What an entry reads as: the quote characters go from both ends, however many there are.
  function Read(e: Entry): string {
    if e.Bare? then e.word else Unquoted(e.word)
  }

  lemma {:induction false} BareUnquoted(w: string)
    requires forall i | 0 <= i < |w| :: !Quote(w[i])
    ensures Unquoted(w) == w
  {}

  lemma {:induction false} UnquotedBack(q: char, w: string)
    requires Quote(q)
    ensures Unquoted(w + [q]) == Unquoted(w)
    decreases |w|
  {
    var s := w + [q];
    if w == "" {
      assert s[0] == q && s[1..] == "";
    } else {
      assert s[0] == w[0];
      if Quote(w[0]) {
        assert s[1..] == w[1..] + [q];
        UnquotedBack(q, w[1..]);
      } else {
        assert s[|s| - 1] == q && s[..|s| - 1] == w;
      }
    }
  }

  lemma EntryReads(e: Entry)
    requires GoodEntry(e)
    ensures Unquoted(PrintEntry(e)) == Read(e)
  {
    if e.Bare? {
      BareUnquoted(e.word);
    } else {
      var s := [e.mark] + (e.word + [e.mark]);
      assert PrintEntry(e) == s && s[0] == e.mark && s[1..] == e.word + [e.mark];
      UnquotedBack(e.mark, e.word);
    }
  }

  function Reads(entries: seq<Entry>): seq<string> {
    if entries == [] then [] else [Read(entries[0])] + Reads(entries[1..])
  }

  function WordsOf(entries: seq<Entry>): seq<string> {
    if entries == [] then [] else [entries[0].word] + WordsOf(entries[1..])
  }

  lemma {:induction false} GoodEntries(items: seq<Item>)
    requires GoodBody(items)
    ensures forall e | e in EntriesOf(items) :: GoodEntry(e)
  {
    if items != [] { GoodEntries(items[1..]); }
  }

  lemma {:induction false} EntriesRead(entries: seq<Entry>, tokens: seq<string>)
    requires (forall e | e in entries :: GoodEntry(e)) && tokens == Printed(entries)
    ensures |tokens| == |entries| == |Reads(entries)|
    ensures forall i | 0 <= i < |tokens| :: Unquoted(tokens[i]) == Reads(entries)[i]
  {
    if entries != [] {
      EntryReads(entries[0]);
      EntriesRead(entries[1..], tokens[1..]);
    }
  }

  /** Reading a printed array gives its entries in order, whatever is written between them and whatever
      follows the closing parenthesis. Quoted entries may hold blanks, parentheses and `#`. */
  lemma ReadsPrinted(items: seq<Item>, rest: string)
    requires GoodBody(items)
    ensures Entries(Scan(PrintBody(items) + ")" + rest, 1, None, "")) == Reads(EntriesOf(items))
  {
    var entries := EntriesOf(items);
    ScanBody(items, rest, "");
    assert "" + Kept(items) == Kept(items);
    TokensOfBody(items);
    GoodEntries(items);
    EntriesRead(entries, Printed(entries));
  }

  lemma {:induction false} LocateAt(text: string, field: string, k: nat, at: nat)
    requires k <= at && HeadAt(text, field, at) > 0 && forall j | k <= j < at :: HeadAt(text, field, j) == 0
    ensures Locate(text, field, k) == Some(at + HeadAt(text, field, at))
    decreases at - k
  {
    if k < at { LocateAt(text, field, k + 1, at); }
  }

  // A quoted word that begins or ends with the other quote character loses it.
  predicate Unharmed(e: Entry) {
    var marks := ['"', '\''];
    e.Bare? || e.word == "" || (e.word[0] !in marks && e.word[|e.word| - 1] !in marks)
  }

  lemma {:induction false} UnquotedShorter(w: string)
    ensures |Unquoted(w)| <= |w|
    ensures Unquoted(w) == w <==> w == "" || (!Quote(w[0]) && !Quote(w[|w| - 1]))
    decreases |w|
  {
    if w != "" {
      if Quote(w[0]) { UnquotedShorter(w[1..]); }
      else if Quote(w[|w| - 1]) { UnquotedShorter(w[..|w| - 1]); }
    }
  }

  lemma {:induction false} WordsReadExactly(entries: seq<Entry>)
    ensures |Reads(entries)| == |WordsOf(entries)|
    ensures Reads(entries) == WordsOf(entries) <==> forall i | 0 <= i < |entries| :: Unharmed(entries[i])
  {
    if entries != [] {
      var e, rest := entries[0], entries[1..];
      UnquotedShorter(e.word);
      WordsReadExactly(rest);
      ConsEqual(Read(e), Reads(rest), e.word, WordsOf(rest));
      assert forall i | 0 <= i < |rest| :: rest[i] == entries[i + 1];
      assert (forall i | 0 <= i < |entries| :: Unharmed(entries[i]))
             <==> Unharmed(e) && forall i | 0 <= i < |rest| :: Unharmed(rest[i]);
    }
  }

  lemma ConsEqual<T>(x: T, xs: seq<T>, y: T, ys: seq<T>)
    ensures [x] + xs == [y] + ys <==> x == y && xs == ys
  {
    if [x] + xs == [y] + ys {
      assert ([x] + xs)[0] == x && ([x] + xs)[1..] == xs;
      assert ([y] + ys)[0] == y && ([y] + ys)[1..] == ys;
    }
  }

  /** The round trip: the field's array, written on a line of its own field, reads back as the list of
      words exactly when no quoted word begins or ends with a quote character. */
  lemma ArrayRoundTrip(before: string, field: string, op: string, items: seq<Item>, rest: string)
    requires GoodBody(items) && (op == "=(" || op == "+=(")
    requires before == "" || before[|before| - 1] == '\n'
    requires forall k | 0 <= k < |before| ::
               HeadAt(before + (field + op) + (PrintBody(items) + ")" + rest), field, k) == 0
    ensures var read := ArrayOf(before + (field + op) + (PrintBody(items) + ")" + rest), field);
            read == Some(Reads(EntriesOf(items)))
            && (read == Some(WordsOf(EntriesOf(items))) <==> forall e | e in EntriesOf(items) :: Unharmed(e))
  {
    var head, body := field + op, PrintBody(items) + ")" + rest;
    var text := before + head + body;
    assert text[|before|..|before| + |head|] == head;
    HeadHere(text, field, op, |before|);
    LocateAt(text, field, 0, |before|);
    assert text[|before| + |head|..] == body;
    ReadsPrinted(items, rest);
    WordsReadExactly(EntriesOf(items));
  }

  lemma HeadHere(text: string, field: string, op: string, k: nat)
    requires op == "=(" || op == "+=("
    requires At(text, field + op, k) && (k == 0 || text[k - 1] == '\n')
    ensures HeadAt(text, field, k) == |field| + |op|
  {
    AtChar(text, field + op, k, |field|);
    AtChar(text, field + "=(", k, |field|);
  }

  lemma AtChar(text: string, p: string, k: nat, j: nat)
    requires j < |p| && k + j < |text|
    ensures At(text, p, k) ==> text[k + j] == p[j]
  {
    if At(text, p, k) { assert text[k..k + |p|][j] == p[j]; }
  }
}
