/** The installer interpreter of os/repo-tools/check-egress-units.py: variable expansion, block
    extraction and the walk over a flat list of statements. */
module ShellWalk {
  // The walk sees no syntax tree. `TakeBlock` counts loop keywords to find the matching `done`, and
  // `Walk` re-walks the block once per loop word. `Run` is the meaning a reader expects of a nested
  // script, commands on a keyword's own line included. `WalkPrinted` is the refinement: walking any
  // nested script printed flat is running that script with everything behind a keyword deleted.
  // `WalkSeesAll` says exactly when that deletes nothing.

  import opened Common
  import opened Text

  datatype Stmt = Stmt(line: nat, argv: seq<string>)
  type Env = map<string, string>

  // What one walk did: the commands handed to the visitor, in order, and the environment it left.
  datatype Outcome = Outcome(visits: seq<Stmt>, env: Env)

  function Then(a: Outcome, b: Outcome): Outcome {
    Outcome(a.visits + b.visits, b.env)
  }

  /** The words and the word-level functions the walker uses. Everything below is parametric in
      them; `SHELL` is the gate's own choice. `leads` are the stepped-over words behind which the
      shell language lets a command stand in the same statement; the walker does not know them. */
  datatype Grammar = Grammar(
    lists: set<string>, listing: string, repeats: set<string>, closer: string, stepped: set<string>,
    leads: set<string>, assignment: string -> Option<(string, string)>, expand: (string, Env) -> string)

  const SHELL := Grammar({"for", "select"}, "in", {"while", "until"}, "done",
                         {"do", "then", "fi", "else", "elif", "esac", "case", "function", "local", "return",
                          "{", "}", "(", ")", ";;", "!", "time", "if"},
                         {"do", "then", "else", "elif", "if", "!", "time", "{", "("}, Assignment, Expand)

  // What a statement is to the walker, decided by its first word.
  datatype Kind = ListLoop | BareLoop | Repeat | Closer | Stepped | Plain

  function KindOf(g: Grammar, s: Stmt): Kind {
    if s.argv == [] then Stepped
    else if s.argv[0] in g.lists then (if g.listing in s.argv then ListLoop else BareLoop)
    else if s.argv[0] in g.repeats then Repeat
    else if s.argv[0] == g.closer then Closer
    else if s.argv[0] in g.stepped then Stepped
    else Plain
  }

  predicate Opens(k: Kind) {
    k.ListLoop? || k.BareLoop? || k.Repeat?
  }

  // Statements the walk goes past without visiting: a `for` without `in` among them.
  predicate SteppedOver(k: Kind) {
    k.BareLoop? || k.Closer? || k.Stepped?
  }

  // ------------------------------------------------------------------ words

  predicate NameStart(c: char) {
    'A' <= c <= 'Z' || 'a' <= c <= 'z' || c == '_'
  }

  predicate NameChar(c: char) {
    NameStart(c) || '0' <= c <= '9'
  }

  // The longest run of name characters `s` opens with.
  function NameTail(s: string): (n: string)
    ensures |n| <= |s| && n == s[..|n|]
  {
    if s == "" || !NameChar(s[0]) then ""
    else
      var n := NameTail(s[1..]);
      assert s[..|n| + 1] == [s[0]] + s[1..][..|n|];
      [s[0]] + n
  }

  // The identifier `s` opens with, or "".
  function Name(s: string): (n: string)
    ensures |n| <= |s| && n == s[..|n|]
  {
    if s == "" || !NameStart(s[0]) then "" else NameTail(s)
  }

  function Lookup(env: Env, name: string, otherwise: string): string {
    if name in env then env[name] else otherwise
  }

  // Substitutes $NAME and ${NAME}; an unknown name is left standing, `$` and all.
  function Expand(w: string, env: Env): string
    decreases |w|
  {
    if w == "" then ""
    else if w[0] == '$' then
      var braced := if |w| > 1 && w[1] == '{' then Name(w[2..]) else "";
      var bare := Name(w[1..]);
      if braced != "" && |braced| + 2 < |w| && w[|braced| + 2] == '}' then
        Lookup(env, braced, w[..|braced| + 3]) + Expand(w[|braced| + 3..], env)
      else if bare != "" then
        Lookup(env, bare, w[..|bare| + 1]) + Expand(w[|bare| + 1..], env)
      else
        "$" + Expand(w[1..], env)
    else [w[0]] + Expand(w[1..], env)
  }

  function ExpandAll(g: Grammar, ws: seq<string>, env: Env): (r: seq<string>)
    ensures |r| == |ws|
    ensures forall i | 0 <= i < |ws| :: r[i] == g.expand(ws[i], env)
  {
    if ws == [] then [] else [g.expand(ws[0], env)] + ExpandAll(g, ws[1..], env)
  }

  // An assignment word NAME=VALUE.
  function Assignment(w: string): Option<(string, string)> {
    var n := Name(w);
    if n != "" && |n| < |w| && w[|n|] == '=' then Some((n, w[|n| + 1..])) else None
  }

  // How many leading words of a command are assignments.
  function Prefix(g: Grammar, argv: seq<string>): (n: nat)
    ensures n <= |argv|
    ensures forall i | 0 <= i < n :: g.assignment(argv[i]).Some?
    ensures n < |argv| ==> g.assignment(argv[n]).None?
  {
    if argv == [] || g.assignment(argv[0]).None? then 0 else 1 + Prefix(g, argv[1..])
  }

  // What a list of assignment words binds, later words winning; a value opening with `(` is an
  // array and binds nothing. Every value is expanded in `env`, the environment before all of them.
  function Bindings(g: Grammar, words: seq<string>, env: Env): Env
    requires forall i | 0 <= i < |words| :: g.assignment(words[i]).Some?
  {
    if words == [] then map[]
    else
      var before := Bindings(g, words[..|words| - 1], env);
      var (name, raw) := g.assignment(words[|words| - 1]).value;
      var value := g.expand(raw, env);
      if StartsWith(value, "(") then before else before[name := value]
  }

  // One simple command: assignments alone change the environment; before a command word they
  // hold for that command only.
  function RunCommand(g: Grammar, line: nat, argv: seq<string>, env: Env): Outcome {
    var j := Prefix(g, argv);
    var inner := env + Bindings(g, argv[..j], env);
    if j == |argv| then Outcome([], inner)
    else Outcome([Stmt(line, ExpandAll(g, argv[j..], inner))], env)
  }

  // ------------------------------------------------------- the flat specification

  // `body` up to the `done` that closes `depth` open loops, and how many statements that used.
  datatype Block = Block(body: seq<Stmt>, used: nat)

  function Prepend(xs: seq<Stmt>, b: Block): Block {
    Block(xs + b.body, |xs| + b.used)
  }

  function Take(g: Grammar, ss: seq<Stmt>, depth: nat): (b: Block)
    ensures b.used <= |ss| && |b.body| <= b.used
  {
    if ss == [] then Block([], 0)
    else
      var k := KindOf(g, ss[0]);
      if Opens(k) then Prepend([ss[0]], Take(g, ss[1..], depth + 1))
      else if k.Closer? && depth == 0 then Block([], 1)
      else if k.Closer? then Prepend([ss[0]], Take(g, ss[1..], depth - 1))
      else Prepend([ss[0]], Take(g, ss[1..], depth))
  }

  function LoopName(g: Grammar, s: Stmt): string
    requires KindOf(g, s).ListLoop?
  {
    if |s.argv| > 1 then s.argv[1] else ""
  }

  function LoopWords(g: Grammar, s: Stmt): seq<string>
    requires KindOf(g, s).ListLoop?
  {
    s.argv[IndexOf(s.argv, g.listing) + 1..]
  }

  function Flat(g: Grammar, ss: seq<Stmt>, env: Env): Outcome
    decreases |ss|, 0
  {
    if ss == [] then Outcome([], env)
    else
      match KindOf(g, ss[0])
      case ListLoop =>
        var block := Take(g, ss[1..], 0);
        var looped := FlatEach(g, block.body, LoopName(g, ss[0]), ExpandAll(g, LoopWords(g, ss[0]), env), env);
        Then(Outcome(looped, env), Flat(g, ss[1..][block.used..], env))
      case Repeat =>
        var block := Take(g, ss[1..], 0);
        Then(Outcome(Flat(g, block.body, env).visits, env), Flat(g, ss[1..][block.used..], env))
      case Plain =>
        var first := RunCommand(g, ss[0].line, ss[0].argv, env);
        Then(first, Flat(g, ss[1..], first.env))
      case _ => Flat(g, ss[1..], env)
  }

  function FlatEach(g: Grammar, body: seq<Stmt>, name: string, values: seq<string>, env: Env): seq<Stmt>
    decreases |body|, |values| + 1
  {
    if values == [] then []
    else Flat(g, body, env[name := values[0]]).visits + FlatEach(g, body, name, values[1..], env)
  }

  /** The visitor is never called without a command word. */
  lemma {:induction false} VisitsHaveWords(g: Grammar, ss: seq<Stmt>, env: Env)
    ensures forall v | v in Flat(g, ss, env).visits :: v.argv != []
    decreases |ss|, 0
  {
    if ss != [] {
      match KindOf(g, ss[0])
      case ListLoop =>
        var block := Take(g, ss[1..], 0);
        EachHasWords(g, block.body, LoopName(g, ss[0]), ExpandAll(g, LoopWords(g, ss[0]), env), env);
        VisitsHaveWords(g, ss[1..][block.used..], env);
      case Repeat =>
        var block := Take(g, ss[1..], 0);
        VisitsHaveWords(g, block.body, env);
        VisitsHaveWords(g, ss[1..][block.used..], env);
      case Plain =>
        var first := RunCommand(g, ss[0].line, ss[0].argv, env);
        assert forall v | v in first.visits :: v.argv != [];
        VisitsHaveWords(g, ss[1..], first.env);
      case _ => VisitsHaveWords(g, ss[1..], env);
    }
  }

  lemma {:induction false} EachHasWords(g: Grammar, body: seq<Stmt>, name: string, values: seq<string>, env: Env)
    ensures forall v | v in FlatEach(g, body, name, values, env) :: v.argv != []
    decreases |body|, |values| + 1
  {
    if values != [] {
      VisitsHaveWords(g, body, env[name := values[0]]);
      EachHasWords(g, body, name, values[1..], env);
    }
  }

  // ------------------------------------------------------- the interpreter's own loops

  // Statements up to the matching `done`, and the index after it.
  method TakeBlock(g: Grammar, stmts: seq<Stmt>, start: nat) returns (body: seq<Stmt>, next: nat)
    requires start <= |stmts|
    ensures start <= next <= |stmts|
    ensures Block(body, next - start) == Take(g, stmts[start..], 0)
  {
    body := [];
    var depth, i := 0, start;
    while i < |stmts|
      invariant start <= i <= |stmts| && depth >= 0
      invariant |body| == i - start
      invariant Take(g, stmts[start..], 0) == Prepend(body, Take(g, stmts[i..], depth))
    {
      PrependTwice(body, [stmts[i]], Take(g, stmts[i + 1..], if Opens(KindOf(g, stmts[i])) then depth + 1
            else if KindOf(g, stmts[i]).Closer? && depth > 0 then depth - 1 else depth));
      assert stmts[i..][1..] == stmts[i + 1..];
      var kind := KindOf(g, stmts[i]);
      if Opens(kind) {
        depth := depth + 1;
      } else if kind == Closer {
        if depth == 0 {
          return body, i + 1;
        }
        depth := depth - 1;
      }
      body := body + [stmts[i]];
      i := i + 1;
    }
    return body, i;
  }

  // Walks the statement list. `env` is the caller's dictionary; the updated one comes back.
  method Walk(g: Grammar, stmts: seq<Stmt>, env: Env) returns (visits: seq<Stmt>, out: Env)
    ensures Outcome(visits, out) == Flat(g, stmts, env)
    decreases |stmts|, 0, 2
  {
    visits, out := [], env;
    var i := 0;
    while i < |stmts|
      invariant 0 <= i <= |stmts|
      invariant Flat(g, stmts, env) == Then(Outcome(visits, out), Flat(g, stmts[i..], out))
    {
      var more, left, next := WalkOne(g, stmts, i, out);
      ThenAssoc(Outcome(visits, out), Outcome(more, left), Flat(g, stmts[next..], left));
      visits, out, i := visits + more, left, next;
    }
  }

  // One turn of the walk: a whole loop, a command, or a statement stepped over.
  method WalkOne(g: Grammar, stmts: seq<Stmt>, i: nat, env: Env) returns (visits: seq<Stmt>, out: Env, next: nat)
    requires i < |stmts|
    ensures i < next <= |stmts|
    ensures Flat(g, stmts[i..], env) == Then(Outcome(visits, out), Flat(g, stmts[next..], out))
    decreases |stmts|, 0, 1
  {
    var s := stmts[i];
    match KindOf(g, s) {
      case ListLoop =>
        visits, next := WalkListLoop(g, stmts, i, env);
        out := env;
      case Repeat =>
        visits, next := WalkRepeat(g, stmts, i, env);
        out := env;
      case Plain =>
        visits, out := Simple(g, s.line, s.argv, env);
        next := i + 1;
        FlatPlain(g, stmts, i, env);
      case _ =>
        visits, out, next := [], env, i + 1;
        FlatStepped(g, stmts, i, env);
    }
  }

  lemma FlatPlain(g: Grammar, stmts: seq<Stmt>, i: nat, env: Env)
    requires i < |stmts| && KindOf(g, stmts[i]).Plain?
    ensures var first := RunCommand(g, stmts[i].line, stmts[i].argv, env);
            Flat(g, stmts[i..], env) == Then(first, Flat(g, stmts[i + 1..], first.env))
  {
    assert stmts[i..][0] == stmts[i] && stmts[i..][1..] == stmts[i + 1..];
  }

  lemma FlatStepped(g: Grammar, stmts: seq<Stmt>, i: nat, env: Env)
    requires i < |stmts| && SteppedOver(KindOf(g, stmts[i]))
    ensures Flat(g, stmts[i..], env) == Then(Outcome([], env), Flat(g, stmts[i + 1..], env))
  {
    assert stmts[i..][0] == stmts[i] && stmts[i..][1..] == stmts[i + 1..];
    ThenNothing(env, Flat(g, stmts[i + 1..], env));
  }

  method WalkListLoop(g: Grammar, stmts: seq<Stmt>, i: nat, env: Env) returns (visits: seq<Stmt>, next: nat)
    requires i < |stmts| && KindOf(g, stmts[i]).ListLoop?
    ensures i < next <= |stmts|
    ensures Flat(g, stmts[i..], env) == Then(Outcome(visits, env), Flat(g, stmts[next..], env))
    decreases |stmts|, 0, 0
  {
    var s := stmts[i];
    var body;
    body, next := TakeBlock(g, stmts, i + 1);
    visits := WalkEach(g, body, LoopName(g, s), ExpandAll(g, LoopWords(g, s), env), env);
    assert stmts[i..][0] == s && stmts[i..][1..] == stmts[i + 1..];
    assert stmts[i + 1..][next - (i + 1)..] == stmts[next..];
  }

  method WalkRepeat(g: Grammar, stmts: seq<Stmt>, i: nat, env: Env) returns (visits: seq<Stmt>, next: nat)
    requires i < |stmts| && KindOf(g, stmts[i]).Repeat?
    ensures i < next <= |stmts|
    ensures Flat(g, stmts[i..], env) == Then(Outcome(visits, env), Flat(g, stmts[next..], env))
    decreases |stmts|, 0, 0
  {
    var body, inner;
    body, next := TakeBlock(g, stmts, i + 1);
    visits, inner := Walk(g, body, env);
    assert stmts[i..] == [stmts[i]] + stmts[i + 1..] && stmts[i + 1..][next - (i + 1)..] == stmts[next..];
    FlatRepeat(g, stmts[i..], stmts[i], stmts[i + 1..], env, Block(body, next - i - 1), stmts[next..]);
  }

  lemma FlatRepeat(g: Grammar, all: seq<Stmt>, s: Stmt, tail: seq<Stmt>, env: Env, b: Block, rest: seq<Stmt>)
    requires KindOf(g, s).Repeat? && all == [s] + tail && b == Take(g, tail, 0) && rest == tail[b.used..]
    ensures Flat(g, all, env) == Then(Outcome(Flat(g, b.body, env).visits, env), Flat(g, rest, env))
  {
    assert all[1..] == tail;
  }

  // One walk of a loop body per value, each in a copy of the environment the loop started in.
  method WalkEach(g: Grammar, body: seq<Stmt>, name: string, values: seq<string>, env: Env) returns (visits: seq<Stmt>)
    ensures visits == FlatEach(g, body, name, values, env)
    decreases |body|, 1, 0
  {
    visits := [];
    for k := 0 to |values|
      invariant visits + FlatEach(g, body, name, values[k..], env) == FlatEach(g, body, name, values, env)
    {
      assert values[k..][0] == values[k] && values[k..][1..] == values[k + 1..];
      var inner, _ := Walk(g, body, env[name := values[k]]);
      SeqAssoc(visits, inner, FlatEach(g, body, name, values[k + 1..], env));
      visits := visits + inner;
    }
  }

  // One simple command: the scan over its leading assignments, then the visit.
  method Simple(g: Grammar, line: nat, argv: seq<string>, env: Env) returns (visits: seq<Stmt>, out: Env)
    ensures Outcome(visits, out) == RunCommand(g, line, argv, env)
  {
    var assigns: Env, j := map[], 0;
    while j < |argv| && g.assignment(argv[j]).Some?
      invariant 0 <= j <= Prefix(g, argv)
      invariant assigns == Bindings(g, argv[..j], env)
    {
      PrefixMore(g, argv, j);
      var (name, raw) := g.assignment(argv[j]).value;
      var value := g.expand(raw, env);
      assert argv[..j + 1][..j] == argv[..j];
      if !StartsWith(value, "(") {
        assigns := assigns[name := value];
      }
      j := j + 1;
    }
    if j == |argv| {
      return [], env + assigns;
    }
    PrefixMore(g, argv, j);
    return [Stmt(line, ExpandAll(g, argv[j..], env + assigns))], env;
  }

  lemma PrefixMore(g: Grammar, argv: seq<string>, j: nat)
    requires j < |argv| && Prefix(g, argv) >= j
    ensures g.assignment(argv[j]).Some? <==> Prefix(g, argv) > j
  {}

  lemma SeqAssoc(a: seq<Stmt>, b: seq<Stmt>, c: seq<Stmt>)
    ensures a + b + c == a + (b + c)
  {}

  lemma PrependTwice(xs: seq<Stmt>, ys: seq<Stmt>, b: Block)
    ensures Prepend(xs, Prepend(ys, b)) == Prepend(xs + ys, b)
  {
    assert xs + (ys + b.body) == xs + ys + b.body;
  }

  lemma ThenAssoc(a: Outcome, b: Outcome, c: Outcome)
    ensures Then(Then(a, b), c) == Then(a, Then(b, c))
  {
    assert a.visits + b.visits + c.visits == a.visits + (b.visits + c.visits);
  }

  // ------------------------------------------------------- the meaning of a nested script

  /** A nested script. `opening`, `doing`, `thn`, `els`, `closing` and `word` are keyword statements,
      written on a statement of their own or with a command behind them. */
  datatype Node =
    | Command(line: nat, argv: seq<string>)
    | ForIn(line: nat, keyword: string, name: string, words: seq<string>, doing: Stmt, body: seq<Node>, closing: Stmt)
    | While(opening: Stmt, doing: Stmt, body: seq<Node>, closing: Stmt)
    | ForArgs(opening: Stmt, doing: Stmt, body: seq<Node>, closing: Stmt)
    | If(opening: Stmt, thn: Stmt, yes: seq<Node>, els: Stmt, no: seq<Node>, closing: Stmt)
    | Keyword(word: Stmt)

  // What is left of `argv` after the words that lead a command in.
  function Past(g: Grammar, argv: seq<string>): seq<string> {
    if argv != [] && argv[0] in g.leads then Past(g, argv[1..]) else argv
  }

  // The command behind the keyword a statement opens with, or []. Behind `while` stands the
  // condition; behind `done`, `fi` or `local` stands no command.
  function Behind(g: Grammar, s: Stmt): seq<string> {
    if s.argv != [] && (s.argv[0] in g.leads || s.argv[0] in g.repeats) then
      var past := Past(g, s.argv[1..]);
      if KindOf(g, Stmt(s.line, past)).Plain? then past else []
    else []
  }

  // No loop opens or closes behind the first word of `s`.
  predicate LoopFree(g: Grammar, s: Stmt) {
    s.argv == [] || var k := KindOf(g, Stmt(s.line, Past(g, s.argv[1..]))); !Opens(k) && !k.Closer?
  }

  predicate Stepping(g: Grammar, s: Stmt) {
    KindOf(g, s).Stepped? && LoopFree(g, s)
  }

  predicate WellFormed(g: Grammar, nodes: seq<Node>) {
    nodes == [] || (WellFormedNode(g, nodes[0]) && WellFormed(g, nodes[1..]))
  }

  predicate WellFormedNode(g: Grammar, n: Node) {
    match n
    case Command(line, argv) => KindOf(g, Stmt(line, argv)).Plain?
    case ForIn(_, keyword, name, _, doing, body, closing) =>
      keyword in g.lists && keyword != g.listing && name != g.listing && Stepping(g, doing)
      && KindOf(g, closing).Closer? && WellFormed(g, body)
    case While(opening, doing, body, closing) =>
      KindOf(g, opening).Repeat? && LoopFree(g, opening) && Stepping(g, doing) && KindOf(g, closing).Closer?
      && WellFormed(g, body)
    case ForArgs(opening, doing, body, closing) =>
      KindOf(g, opening).BareLoop? && |opening.argv| <= 2 && Stepping(g, doing) && KindOf(g, closing).Closer?
      && WellFormed(g, body)
    case If(opening, thn, yes, els, no, closing) =>
      Stepping(g, opening) && Stepping(g, thn) && Stepping(g, els) && Stepping(g, closing)
      && WellFormed(g, yes) && WellFormed(g, no)
    case Keyword(word) => Stepping(g, word)
  }

  function Print(g: Grammar, nodes: seq<Node>): seq<Stmt> {
    if nodes == [] then [] else PrintNode(g, nodes[0]) + Print(g, nodes[1..])
  }

  function PrintNode(g: Grammar, n: Node): seq<Stmt> {
    match n
    case Command(line, argv) => [Stmt(line, argv)]
    case ForIn(line, keyword, name, words, doing, body, closing) =>
      Loop(Header(g, line, keyword, name, words), doing, Print(g, body), closing)
    case While(opening, doing, body, closing) => Loop(opening, doing, Print(g, body), closing)
    case ForArgs(opening, doing, body, closing) => Loop(opening, doing, Print(g, body), closing)
    case If(opening, thn, yes, els, no, closing) =>
      [opening] + ([thn] + (Print(g, yes) + ([els] + (Print(g, no) + [closing]))))
    case Keyword(word) => [word]
  }

  function Header(g: Grammar, line: nat, keyword: string, name: string, words: seq<string>): Stmt {
    Stmt(line, [keyword, name, g.listing] + words)
  }

  function Loop(opening: Stmt, doing: Stmt, body: seq<Stmt>, closing: Stmt): seq<Stmt> {
    [opening] + (([doing] + body) + [closing])
  }

  /** The recursive semantics: a list loop runs its body once per word, each time from the
      environment the loop started in; a `while` runs its condition and its body once, in a copy; both
      branches of a conditional run; an argument loop is a plain block; and a command behind a keyword
      runs where it stands. */
  function Run(g: Grammar, nodes: seq<Node>, env: Env): Outcome
    decreases nodes, 0
  {
    if nodes == [] then Outcome([], env)
    else
      var first := RunNode(g, nodes[0], env);
      Then(first, Run(g, nodes[1..], first.env))
  }

  function RunNode(g: Grammar, n: Node, env: Env): Outcome
    decreases n, 0
  {
    match n
    case Command(line, argv) => RunCommand(g, line, argv, env)
    case ForIn(_, _, name, words, doing, body, _) =>
      Outcome(RunEach(g, doing, body, name, ExpandAll(g, words, env), env), env)
    case While(opening, doing, body, _) =>
      var condition := RunBehind(g, opening, env);
      Outcome(Then(condition, RunBlock(g, doing, body, condition.env)).visits, env)
    case ForArgs(_, doing, body, _) => RunBlock(g, doing, body, env)
    case If(opening, thn, yes, els, no, _) =>
      var condition := RunBehind(g, opening, env);
      var a := RunBlock(g, thn, yes, condition.env);
      Then(condition, Then(a, RunBlock(g, els, no, a.env)))
    case Keyword(word) => RunBehind(g, word, env)
  }

  function RunBehind(g: Grammar, s: Stmt, env: Env): Outcome {
    var command := Behind(g, s);
    if command == [] then Outcome([], env) else RunCommand(g, s.line, command, env)
  }

  function RunBlock(g: Grammar, lead: Stmt, body: seq<Node>, env: Env): Outcome
    decreases body, 1
  {
    var first := RunBehind(g, lead, env);
    Then(first, Run(g, body, first.env))
  }

  function RunEach(g: Grammar, doing: Stmt, body: seq<Node>, name: string, values: seq<string>, env: Env): seq<Stmt>
    decreases body, |values| + 2
  {
    if values == [] then []
    else RunBlock(g, doing, body, env[name := values[0]]).visits + RunEach(g, doing, body, name, values[1..], env)
  }

  // The script with everything behind a keyword deleted.
  function Bare(nodes: seq<Node>): seq<Node> {
    if nodes == [] then [] else [BareNode(nodes[0])] + Bare(nodes[1..])
  }

  function BareNode(n: Node): Node {
    match n
    case Command(_, _) => n
    case ForIn(line, keyword, name, words, doing, body, closing) =>
      ForIn(line, keyword, name, words, Alone(doing), Bare(body), closing)
    case While(opening, doing, body, closing) => While(Alone(opening), Alone(doing), Bare(body), closing)
    case ForArgs(opening, doing, body, closing) => ForArgs(opening, Alone(doing), Bare(body), closing)
    case If(opening, thn, yes, els, no, closing) =>
      If(Alone(opening), Alone(thn), Bare(yes), Alone(els), Bare(no), closing)
    case Keyword(word) => Keyword(Alone(word))
  }

  function Alone(s: Stmt): Stmt {
    Stmt(s.line, if s.argv == [] then [] else s.argv[..1])
  }

  lemma AloneRunsNothing(g: Grammar, s: Stmt, env: Env)
    ensures RunBehind(g, Alone(s), env) == Outcome([], env)
  {
    assert s.argv != [] ==> Alone(s).argv[1..] == [];
  }

  // Running a block behind a bare keyword is running the block.
  lemma AloneBlock(g: Grammar, lead: Stmt, body: seq<Node>, env: Env)
    ensures RunBlock(g, Alone(lead), body, env) == Run(g, body, env)
  {
    AloneRunsNothing(g, lead, env);
    ThenNothing(env, Run(g, body, env));
  }

  // ------------------------------------------------------- refinement

  // Taking a block across `xs`, whose loops are all closed, only prepends `xs`.
  ghost predicate Across(g: Grammar, xs: seq<Stmt>) {
    forall rest, depth :: Take(g, xs + rest, depth) == Prepend(xs, Take(g, rest, depth))
  }

  lemma AcrossNone(g: Grammar)
    ensures Across(g, [])
  {
    forall rest: seq<Stmt>, depth: nat ensures Take(g, [] + rest, depth) == Prepend([], Take(g, rest, depth)) {
      assert [] + rest == rest;
      assert [] + Take(g, rest, depth).body == Take(g, rest, depth).body;
    }
  }

  lemma AcrossOne(g: Grammar, s: Stmt)
    requires !Opens(KindOf(g, s)) && !KindOf(g, s).Closer?
    ensures Across(g, [s])
  {
    forall rest: seq<Stmt>, depth: nat ensures Take(g, [s] + rest, depth) == Prepend([s], Take(g, rest, depth)) {
      assert ([s] + rest)[1..] == rest;
    }
  }

  lemma AcrossBoth(g: Grammar, xs: seq<Stmt>, ys: seq<Stmt>)
    requires Across(g, xs) && Across(g, ys)
    ensures Across(g, xs + ys)
  {
    forall rest: seq<Stmt>, depth: nat
      ensures Take(g, xs + ys + rest, depth) == Prepend(xs + ys, Take(g, rest, depth))
    {
      assert xs + ys + rest == xs + (ys + rest);
      PrependTwice(xs, ys, Take(g, rest, depth));
    }
  }

  lemma AcrossLoop(g: Grammar, opening: Stmt, inner: seq<Stmt>, closing: Stmt)
    requires Opens(KindOf(g, opening)) && Across(g, inner) && KindOf(g, closing).Closer?
    ensures Across(g, [opening] + (inner + [closing]))
  {
    forall rest: seq<Stmt>, depth: nat
      ensures Take(g, [opening] + (inner + [closing]) + rest, depth)
           == Prepend([opening] + (inner + [closing]), Take(g, rest, depth))
    {
      var tail := [closing] + rest;
      assert [opening] + (inner + [closing]) + rest == [opening] + (inner + tail);
      assert ([opening] + (inner + tail))[1..] == inner + tail;
      assert Take(g, inner + tail, depth + 1) == Prepend(inner, Take(g, tail, depth + 1));
      assert tail[1..] == rest;
      assert Take(g, tail, depth + 1) == Prepend([closing], Take(g, rest, depth));
      PrependTwice(inner, [closing], Take(g, rest, depth));
      PrependTwice([opening], inner + [closing], Take(g, rest, depth));
    }
  }

  lemma {:induction false} AcrossPrinted(g: Grammar, nodes: seq<Node>)
    requires WellFormed(g, nodes)
    ensures Across(g, Print(g, nodes))
    decreases nodes, 0
  {
    if nodes == [] {
      AcrossNone(g);
    } else {
      AcrossNode(g, nodes[0]);
      AcrossPrinted(g, nodes[1..]);
      AcrossBoth(g, PrintNode(g, nodes[0]), Print(g, nodes[1..]));
    }
  }

  lemma {:induction false} AcrossNode(g: Grammar, n: Node)
    requires WellFormedNode(g, n)
    ensures Across(g, PrintNode(g, n))
    decreases n, 1
  {
    match n
    case Command(line, argv) => AcrossOne(g, Stmt(line, argv));
    case Keyword(word) => AcrossOne(g, word);
    case ForIn(line, keyword, name, words, doing, body, closing) =>
      AcrossDo(g, doing, body);
      AcrossLoop(g, Header(g, line, keyword, name, words), [doing] + Print(g, body), closing);
    case While(opening, doing, body, closing) =>
      AcrossDo(g, doing, body);
      AcrossLoop(g, opening, [doing] + Print(g, body), closing);
    case ForArgs(opening, doing, body, closing) =>
      AcrossDo(g, doing, body);
      AcrossLoop(g, opening, [doing] + Print(g, body), closing);
    case If(opening, thn, yes, els, no, closing) =>
      AcrossPrinted(g, no);
      AcrossOne(g, closing);
      AcrossBoth(g, Print(g, no), [closing]);
      AcrossOne(g, els);
      AcrossBoth(g, [els], Print(g, no) + [closing]);
      AcrossPrinted(g, yes);
      AcrossBoth(g, Print(g, yes), [els] + (Print(g, no) + [closing]));
      AcrossOne(g, thn);
      AcrossBoth(g, [thn], Print(g, yes) + ([els] + (Print(g, no) + [closing])));
      AcrossOne(g, opening);
      AcrossBoth(g, [opening], [thn] + (Print(g, yes) + ([els] + (Print(g, no) + [closing]))));
  }

  lemma {:induction false} AcrossDo(g: Grammar, doing: Stmt, body: seq<Node>)
    requires KindOf(g, doing).Stepped? && WellFormed(g, body)
    ensures Across(g, [doing] + Print(g, body))
    decreases body, 1
  {
    AcrossOne(g, doing);
    AcrossPrinted(g, body);
    AcrossBoth(g, [doing], Print(g, body));
  }

  // The block a printed loop hands to the recursive walk is exactly its printed inside.
  lemma TakeInside(g: Grammar, opening: Stmt, inner: seq<Stmt>, closing: Stmt, rest: seq<Stmt>)
    requires Across(g, inner) && KindOf(g, closing).Closer?
    ensures var after := ([opening] + (inner + [closing]) + rest)[1..];
            Take(g, after, 0) == Block(inner, |inner| + 1) && after[|inner| + 1..] == rest
  {
    var tail := [closing] + rest;
    assert ([opening] + (inner + [closing]) + rest)[1..] == inner + tail;
    assert Take(g, inner + tail, 0) == Prepend(inner, Take(g, tail, 0));
    assert Take(g, tail, 0) == Block([], 1);
    assert inner + [] == inner;
  }

  // Walking `xs` and then `rest` does what `did` says and then walks `rest`.
  ghost predicate Does(g: Grammar, xs: seq<Stmt>, env: Env, did: Outcome) {
    forall rest :: Flat(g, xs + rest, env) == Then(did, Flat(g, rest, did.env))
  }

  lemma DoesNothing(g: Grammar, env: Env)
    ensures Does(g, [], env, Outcome([], env))
  {
    forall rest: seq<Stmt> ensures Flat(g, [] + rest, env) == Then(Outcome([], env), Flat(g, rest, env)) {
      assert [] + rest == rest;
      assert [] + Flat(g, rest, env).visits == Flat(g, rest, env).visits;
    }
  }

  lemma DoesSkip(g: Grammar, s: Stmt, env: Env)
    requires SteppedOver(KindOf(g, s))
    ensures Does(g, [s], env, Outcome([], env))
  {
    forall rest: seq<Stmt> ensures Flat(g, [s] + rest, env) == Then(Outcome([], env), Flat(g, rest, env)) {
      assert ([s] + rest)[1..] == rest;
      assert [] + Flat(g, rest, env).visits == Flat(g, rest, env).visits;
    }
  }

  lemma DoesBoth(g: Grammar, xs: seq<Stmt>, ys: seq<Stmt>, env: Env, a: Outcome, b: Outcome)
    requires Does(g, xs, env, a) && Does(g, ys, a.env, b)
    ensures Does(g, xs + ys, env, Then(a, b))
  {
    forall rest: seq<Stmt> ensures Flat(g, xs + ys + rest, env) == Then(Then(a, b), Flat(g, rest, b.env)) {
      DoesBothThen(g, xs, ys, rest, env, a, b);
    }
  }

  lemma DoesBothThen(g: Grammar, xs: seq<Stmt>, ys: seq<Stmt>, rest: seq<Stmt>, env: Env, a: Outcome, b: Outcome)
    requires Flat(g, xs + (ys + rest), env) == Then(a, Flat(g, ys + rest, a.env))
    requires Flat(g, ys + rest, a.env) == Then(b, Flat(g, rest, b.env))
    ensures Flat(g, xs + ys + rest, env) == Then(Then(a, b), Flat(g, rest, b.env))
  {
    assert xs + ys + rest == xs + (ys + rest);
    ThenAssoc(a, b, Flat(g, rest, b.env));
  }

  lemma DoesAlone(g: Grammar, xs: seq<Stmt>, env: Env, did: Outcome)
    requires Does(g, xs, env, did)
    ensures Flat(g, xs, env) == did
  {
    assert xs + [] == xs;
    AfterDoes(g, xs, [], env, did);
    FlatNothing(g, did.env);
    ThenNothing(env, did);
  }

  lemma AfterDoes(g: Grammar, xs: seq<Stmt>, rest: seq<Stmt>, env: Env, did: Outcome)
    requires Does(g, xs, env, did)
    ensures Flat(g, xs + rest, env) == Then(did, Flat(g, rest, did.env))
  {}

  lemma FlatNothing(g: Grammar, env: Env)
    ensures Flat(g, [], env) == Outcome([], env)
  {}

  lemma ThenNothing(env: Env, a: Outcome)
    ensures Then(Outcome([], env), a) == a && Then(a, Outcome([], a.env)) == a
  {
    assert [] + a.visits == a.visits == a.visits + [];
  }

  /** The refinement, in context: walking a printed script, whatever follows it, does what running
      the script without the words behind its keywords does, and goes on from the environment that
      leaves. */
  lemma {:induction false} DoesPrinted(g: Grammar, nodes: seq<Node>, env: Env)
    requires WellFormed(g, nodes)
    ensures Does(g, Print(g, nodes), env, Run(g, Bare(nodes), env))
    decreases nodes, 0
  {
    if nodes == [] {
      DoesNothing(g, env);
    } else {
      var first := RunNode(g, BareNode(nodes[0]), env);
      DoesNode(g, nodes[0], env);
      DoesPrinted(g, nodes[1..], first.env);
      assert Bare(nodes)[0] == BareNode(nodes[0]) && Bare(nodes)[1..] == Bare(nodes[1..]);
      DoesBoth(g, PrintNode(g, nodes[0]), Print(g, nodes[1..]), env, first, Run(g, Bare(nodes[1..]), first.env));
    }
  }

  lemma {:induction false} DoesNode(g: Grammar, n: Node, env: Env)
    requires WellFormedNode(g, n)
    ensures Does(g, PrintNode(g, n), env, RunNode(g, BareNode(n), env))
    decreases n, 1
  {
    match n
    case Command(line, argv) => DoesCommand(g, line, argv, env);
    case Keyword(word) =>
      DoesSkip(g, word, env);
      AloneRunsNothing(g, word, env);
    case ForIn(line, keyword, name, words, doing, body, closing) =>
      EachPrinted(g, doing, body, name, ExpandAll(g, words, env), env);
      AcrossDo(g, doing, body);
      DoesListLoop(g, line, keyword, name, words, [doing] + Print(g, body), closing, env);
    case While(opening, doing, body, closing) => DoesWhile(g, n, env);
    case ForArgs(opening, doing, body, closing) =>
      var did := Run(g, Bare(body), env);
      DoesDo(g, doing, body, env);
      DoesSkip(g, closing, did.env);
      DoesBoth(g, [doing] + Print(g, body), [closing], env, did, Outcome([], did.env));
      ThenNothing(env, did);
      DoesSkip(g, opening, env);
      DoesBoth(g, [opening], [doing] + Print(g, body) + [closing], env, Outcome([], env), did);
      AloneBlock(g, doing, Bare(body), env);
    case If(opening, thn, yes, els, no, closing) => DoesIf(g, n, env);
  }

  lemma {:induction false} DoesWhile(g: Grammar, n: Node, env: Env)
    requires n.While? && WellFormedNode(g, n)
    ensures Does(g, PrintNode(g, n), env, RunNode(g, BareNode(n), env))
    decreases n, 0
  {
    var did := Run(g, Bare(n.body), env);
    DoesDo(g, n.doing, n.body, env);
    DoesAlone(g, [n.doing] + Print(g, n.body), env, did);
    AcrossDo(g, n.doing, n.body);
    DoesRepeat(g, n.opening, [n.doing] + Print(g, n.body), n.closing, env);
    AloneRunsNothing(g, n.opening, env);
    AloneBlock(g, n.doing, Bare(n.body), env);
    ThenNothing(env, did);
  }

  lemma DoesCommand(g: Grammar, line: nat, argv: seq<string>, env: Env)
    requires KindOf(g, Stmt(line, argv)).Plain?
    ensures Does(g, [Stmt(line, argv)], env, RunCommand(g, line, argv, env))
  {
    forall rest: seq<Stmt>
      ensures var did := RunCommand(g, line, argv, env);
              Flat(g, [Stmt(line, argv)] + rest, env) == Then(did, Flat(g, rest, did.env))
    {
      assert ([Stmt(line, argv)] + rest)[1..] == rest;
    }
  }

  lemma DoesListLoop(g: Grammar, line: nat, keyword: string, name: string, words: seq<string>, inner: seq<Stmt>,
                     closing: Stmt, env: Env)
    requires keyword in g.lists && keyword != g.listing && name != g.listing
    requires Across(g, inner) && KindOf(g, closing).Closer?
    ensures Does(g, [Header(g, line, keyword, name, words)] + (inner + [closing]), env,
                 Outcome(FlatEach(g, inner, name, ExpandAll(g, words, env), env), env))
  {
    var header := Header(g, line, keyword, name, words);
    HeaderWords(g, line, keyword, name, words);
    forall rest: seq<Stmt>
      ensures Flat(g, [header] + (inner + [closing]) + rest, env)
           == Then(Outcome(FlatEach(g, inner, name, ExpandAll(g, words, env), env), env), Flat(g, rest, env))
    {
      TakeInside(g, header, inner, closing, rest);
    }
  }

  lemma HeaderWords(g: Grammar, line: nat, keyword: string, name: string, words: seq<string>)
    requires keyword in g.lists && keyword != g.listing && name != g.listing
    ensures var h := Header(g, line, keyword, name, words);
            KindOf(g, h).ListLoop? && LoopName(g, h) == name && LoopWords(g, h) == words
  {
    var argv := Header(g, line, keyword, name, words).argv;
    assert argv[0] == keyword && argv[1] == name && argv[2] == g.listing;
    assert argv[..2] == [keyword, name];
    IndexOfIs(argv, g.listing, 2);
    assert argv[3..] == words;
  }

  lemma DoesRepeat(g: Grammar, opening: Stmt, inner: seq<Stmt>, closing: Stmt, env: Env)
    requires KindOf(g, opening).Repeat? && Across(g, inner) && KindOf(g, closing).Closer?
    ensures Does(g, [opening] + (inner + [closing]), env, Outcome(Flat(g, inner, env).visits, env))
  {
    forall rest: seq<Stmt>
      ensures Flat(g, [opening] + (inner + [closing]) + rest, env)
           == Then(Outcome(Flat(g, inner, env).visits, env), Flat(g, rest, env))
    {
      TakeInside(g, opening, inner, closing, rest);
    }
  }

  lemma {:induction false} DoesDo(g: Grammar, doing: Stmt, body: seq<Node>, env: Env)
    requires KindOf(g, doing).Stepped? && WellFormed(g, body)
    ensures Does(g, [doing] + Print(g, body), env, Run(g, Bare(body), env))
    decreases body, 1
  {
    var did := Run(g, Bare(body), env);
    DoesSkip(g, doing, env);
    DoesPrinted(g, body, env);
    DoesBoth(g, [doing], Print(g, body), env, Outcome([], env), did);
    ThenNothing(env, did);
  }

  lemma {:induction false} DoesIf(g: Grammar, n: Node, env: Env)
    requires n.If? && WellFormedNode(g, n)
    ensures Does(g, PrintNode(g, n), env, RunNode(g, BareNode(n), env))
    decreases n, 0
  {
    var a := Run(g, Bare(n.yes), env);
    var b := Run(g, Bare(n.no), a.env);
    var both := Then(a, b);
    var no := [n.els] + (Print(g, n.no) + [n.closing]);
    DoesPrinted(g, n.no, a.env);
    DoesSkip(g, n.closing, b.env);
    DoesBoth(g, Print(g, n.no), [n.closing], a.env, b, Outcome([], b.env));
    ThenNothing(a.env, b);
    DoesSkip(g, n.els, a.env);
    DoesBoth(g, [n.els], Print(g, n.no) + [n.closing], a.env, Outcome([], a.env), b);
    DoesPrinted(g, n.yes, env);
    DoesBoth(g, Print(g, n.yes), no, env, a, b);
    ThenNothing(env, both);
    DoesSkip(g, n.thn, env);
    DoesBoth(g, [n.thn], Print(g, n.yes) + no, env, Outcome([], env), both);
    DoesSkip(g, n.opening, env);
    DoesBoth(g, [n.opening], [n.thn] + (Print(g, n.yes) + no), env, Outcome([], env), both);
    BareIf(g, n, env);
  }

  lemma BareIf(g: Grammar, n: Node, env: Env)
    requires n.If?
    ensures var a := Run(g, Bare(n.yes), env);
            RunNode(g, BareNode(n), env) == Then(a, Run(g, Bare(n.no), a.env))
  {
    var a := Run(g, Bare(n.yes), env);
    AloneRunsNothing(g, n.opening, env);
    AloneBlock(g, n.thn, Bare(n.yes), env);
    AloneBlock(g, n.els, Bare(n.no), a.env);
    ThenNothing(env, Then(a, Run(g, Bare(n.no), a.env)));
  }

  lemma {:induction false} EachPrinted(g: Grammar, doing: Stmt, body: seq<Node>, name: string, values: seq<string>,
                                       env: Env)
    requires KindOf(g, doing).Stepped? && WellFormed(g, body)
    ensures FlatEach(g, [doing] + Print(g, body), name, values, env)
            == RunEach(g, Alone(doing), Bare(body), name, values, env)
    decreases body, 2, |values|
  {
    if values != [] {
      var inner := env[name := values[0]];
      DoesDo(g, doing, body, inner);
      DoesAlone(g, [doing] + Print(g, body), inner, Run(g, Bare(body), inner));
      AloneBlock(g, doing, Bare(body), inner);
      EachPrinted(g, doing, body, name, values[1..], env);
    }
  }

  /** The flat walker refines the nested semantics of the script without what stands behind its
      keywords: same commands, same order, same expanded words, same final environment. */
  lemma WalkPrinted(g: Grammar, nodes: seq<Node>, env: Env)
    requires WellFormed(g, nodes)
    ensures Flat(g, Print(g, nodes), env) == Run(g, Bare(nodes), env)
  {
    DoesPrinted(g, nodes, env);
    DoesAlone(g, Print(g, nodes), env, Run(g, Bare(nodes), env));
  }

  // ------------------------------------------------------- what is missed

  // The lines of the visited commands, one entry a visit, in order.
  function Lines(visits: seq<Stmt>): (r: seq<nat>)
    ensures |r| == |visits|
  {
    if visits == [] then [] else [visits[0].line] + Lines(visits[1..])
  }

  lemma {:induction false} LinesBoth(a: seq<Stmt>, b: seq<Stmt>)
    ensures Lines(a + b) == Lines(a) + Lines(b)
  {
    if a == [] {
      assert a + b == b;
    } else {
      assert (a + b)[1..] == a[1..] + b;
      LinesBoth(a[1..], b);
    }
  }

  function Times(n: nat, xs: seq<nat>): seq<nat> {
    if n == 0 then [] else xs + Times(n - 1, xs)
  }

  // The lines of the commands a script runs, whatever the environment: one entry a run.
  function Sites(g: Grammar, nodes: seq<Node>): seq<nat> {
    if nodes == [] then [] else SitesNode(g, nodes[0]) + Sites(g, nodes[1..])
  }

  function SitesNode(g: Grammar, n: Node): seq<nat> {
    match n
    case Command(line, argv) => SiteOf(g, line, argv)
    case ForIn(_, _, _, words, doing, body, _) => Times(|words|, SitesBehind(g, doing) + Sites(g, body))
    case While(opening, doing, body, _) => SitesBehind(g, opening) + (SitesBehind(g, doing) + Sites(g, body))
    case ForArgs(_, doing, body, _) => SitesBehind(g, doing) + Sites(g, body)
    case If(opening, thn, yes, els, no, _) =>
      SitesBehind(g, opening)
      + ((SitesBehind(g, thn) + Sites(g, yes)) + (SitesBehind(g, els) + Sites(g, no)))
    case Keyword(word) => SitesBehind(g, word)
  }

  // A command without a command word runs nothing.
  function SiteOf(g: Grammar, line: nat, argv: seq<string>): seq<nat> {
    if Prefix(g, argv) < |argv| then [line] else []
  }

  function SitesBehind(g: Grammar, s: Stmt): seq<nat> {
    SiteOf(g, s.line, Behind(g, s))
  }

  lemma {:induction false} RunSites(g: Grammar, nodes: seq<Node>, env: Env)
    ensures Lines(Run(g, nodes, env).visits) == Sites(g, nodes)
    decreases nodes, 0
  {
    if nodes != [] {
      var first := RunNode(g, nodes[0], env);
      NodeSites(g, nodes[0], env);
      RunSites(g, nodes[1..], first.env);
      LinesBoth(first.visits, Run(g, nodes[1..], first.env).visits);
    }
  }

  lemma {:induction false} NodeSites(g: Grammar, n: Node, env: Env)
    ensures Lines(RunNode(g, n, env).visits) == SitesNode(g, n)
    decreases n, 1
  {
    match n
    case Command(line, argv) =>
    case Keyword(word) => BehindSites(g, word, env);
    case ForIn(_, _, name, words, doing, body, _) => EachSites(g, doing, body, name, ExpandAll(g, words, env), env);
    case While(opening, doing, body, _) =>
      var condition := RunBehind(g, opening, env);
      BehindSites(g, opening, env);
      BlockSites(g, doing, body, condition.env);
      LinesBoth(condition.visits, RunBlock(g, doing, body, condition.env).visits);
    case ForArgs(_, doing, body, _) => BlockSites(g, doing, body, env);
    case If(opening, thn, yes, els, no, _) =>
      var condition := RunBehind(g, opening, env);
      var a := RunBlock(g, thn, yes, condition.env);
      var b := RunBlock(g, els, no, a.env);
      BehindSites(g, opening, env);
      BlockSites(g, thn, yes, condition.env);
      BlockSites(g, els, no, a.env);
      LinesIf(condition, a, b);
  }

  lemma LinesIf(a: Outcome, b: Outcome, c: Outcome)
    ensures Lines(Then(a, Then(b, c)).visits) == Lines(a.visits) + (Lines(b.visits) + Lines(c.visits))
  {
    LinesThree(a.visits, b.visits, c.visits);
  }

  lemma LinesThree(xs: seq<Stmt>, ys: seq<Stmt>, zs: seq<Stmt>)
    ensures Lines(xs + (ys + zs)) == Lines(xs) + (Lines(ys) + Lines(zs))
  {
    LinesBoth(ys, zs);
    LinesBoth(xs, ys + zs);
  }

  lemma BehindSites(g: Grammar, s: Stmt, env: Env)
    ensures Lines(RunBehind(g, s, env).visits) == SitesBehind(g, s)
  {}

  lemma {:induction false} BlockSites(g: Grammar, lead: Stmt, body: seq<Node>, env: Env)
    ensures Lines(RunBlock(g, lead, body, env).visits) == SitesBehind(g, lead) + Sites(g, body)
    decreases body, 1
  {
    var first := RunBehind(g, lead, env);
    BehindSites(g, lead, env);
    RunSites(g, body, first.env);
    LinesBoth(first.visits, Run(g, body, first.env).visits);
  }

  lemma LinesTimes(a: seq<Stmt>, b: seq<Stmt>, n: nat, xs: seq<nat>)
    requires Lines(a) == xs && Lines(b) == Times(n, xs)
    ensures Lines(a + b) == Times(n + 1, xs)
  {
    LinesBoth(a, b);
  }

  lemma {:induction false} EachSites(g: Grammar, doing: Stmt, body: seq<Node>, name: string, values: seq<string>,
                                     env: Env)
    ensures Lines(RunEach(g, doing, body, name, values, env)) == Times(|values|, SitesBehind(g, doing) + Sites(g, body))
    decreases body, 2, |values|
  {
    if values != [] {
      BlockSites(g, doing, body, env[name := values[0]]);
      EachSites(g, doing, body, name, values[1..], env);
      LinesTimes(RunBlock(g, doing, body, env[name := values[0]]).visits,
                 RunEach(g, doing, body, name, values[1..], env), |values| - 1, SitesBehind(g, doing) + Sites(g, body));
    }
  }

  // Whether a statement that can run has something behind its keyword: a command word, or, unless
  // `commands`, anything at all. The body of a loop over no words cannot run.
  predicate Hides(g: Grammar, nodes: seq<Node>, commands: bool) {
    nodes != [] && (HidesNode(g, nodes[0], commands) || Hides(g, nodes[1..], commands))
  }

  predicate HidesNode(g: Grammar, n: Node, commands: bool) {
    match n
    case Command(_, _) => false
    case ForIn(_, _, _, words, doing, body, _) =>
      words != [] && (HidesBehind(g, doing, commands) || Hides(g, body, commands))
    case While(opening, doing, body, _) =>
      HidesBehind(g, opening, commands) || HidesBehind(g, doing, commands) || Hides(g, body, commands)
    case ForArgs(_, doing, body, _) => HidesBehind(g, doing, commands) || Hides(g, body, commands)
    case If(opening, thn, yes, els, no, _) =>
      HidesBehind(g, opening, commands) || HidesBehind(g, thn, commands) || HidesBehind(g, els, commands)
      || Hides(g, yes, commands) || Hides(g, no, commands)
    case Keyword(word) => HidesBehind(g, word, commands)
  }

  predicate HidesBehind(g: Grammar, s: Stmt, commands: bool) {
    var command := Behind(g, s);
    if commands then Prefix(g, command) < |command| else command != []
  }

  // `some` is `all` with entries left out, at least one exactly if `fewer`.
  predicate Leaves(all: seq<nat>, some: seq<nat>, fewer: bool) {
    |some| <= |all| && (fewer <==> |some| < |all|) && (!fewer ==> some == all)
  }

  lemma LeavesBoth(a: seq<nat>, x: seq<nat>, f: bool, b: seq<nat>, y: seq<nat>, h: bool)
    requires Leaves(a, x, f) && Leaves(b, y, h)
    ensures Leaves(a + b, x + y, f || h)
  {}

  lemma {:induction false} LeavesTimes(n: nat, all: seq<nat>, some: seq<nat>, fewer: bool)
    requires Leaves(all, some, fewer)
    ensures Leaves(Times(n, all), Times(n, some), n > 0 && fewer)
  {
    if n > 0 {
      LeavesTimes(n - 1, all, some, fewer);
      LeavesBoth(all, some, fewer, Times(n - 1, all), Times(n - 1, some), n > 1 && fewer);
    }
  }

  lemma LeavesBehind(g: Grammar, s: Stmt)
    ensures Leaves(SitesBehind(g, s), SitesBehind(g, Alone(s)), HidesBehind(g, s, true))
  {
    assert s.argv != [] ==> Alone(s).argv[1..] == [];
  }

  lemma {:induction false} BareLeaves(g: Grammar, nodes: seq<Node>)
    ensures Leaves(Sites(g, nodes), Sites(g, Bare(nodes)), Hides(g, nodes, true))
    decreases nodes, 0
  {
    if nodes != [] {
      BareNodeLeaves(g, nodes[0]);
      BareLeaves(g, nodes[1..]);
      assert Bare(nodes)[0] == BareNode(nodes[0]) && Bare(nodes)[1..] == Bare(nodes[1..]);
      LeavesBoth(SitesNode(g, nodes[0]), SitesNode(g, BareNode(nodes[0])), HidesNode(g, nodes[0], true),
                 Sites(g, nodes[1..]), Sites(g, Bare(nodes[1..])), Hides(g, nodes[1..], true));
    }
  }

  lemma {:induction false} BareNodeLeaves(g: Grammar, n: Node)
    ensures Leaves(SitesNode(g, n), SitesNode(g, BareNode(n)), HidesNode(g, n, true))
    decreases n, 1
  {
    match n
    case Command(_, _) =>
    case Keyword(word) => LeavesBehind(g, word);
    case ForIn(_, _, _, words, doing, body, _) =>
      BareBlockLeaves(g, doing, body);
      LeavesTimes(|words|, SitesBehind(g, doing) + Sites(g, body), SitesBehind(g, Alone(doing)) + Sites(g, Bare(body)),
                  HidesBehind(g, doing, true) || Hides(g, body, true));
    case While(opening, doing, body, _) =>
      LeavesBehind(g, opening);
      BareBlockLeaves(g, doing, body);
      LeavesBoth(SitesBehind(g, opening), SitesBehind(g, Alone(opening)), HidesBehind(g, opening, true),
                 SitesBehind(g, doing) + Sites(g, body), SitesBehind(g, Alone(doing)) + Sites(g, Bare(body)),
                 HidesBehind(g, doing, true) || Hides(g, body, true));
    case ForArgs(_, doing, body, _) => BareBlockLeaves(g, doing, body);
    case If(opening, thn, yes, els, no, _) =>
      var a, x := SitesBehind(g, thn) + Sites(g, yes), SitesBehind(g, Alone(thn)) + Sites(g, Bare(yes));
      var b, y := SitesBehind(g, els) + Sites(g, no), SitesBehind(g, Alone(els)) + Sites(g, Bare(no));
      var f := HidesBehind(g, thn, true) || Hides(g, yes, true);
      var h := HidesBehind(g, els, true) || Hides(g, no, true);
      LeavesBehind(g, opening);
      BareBlockLeaves(g, thn, yes);
      BareBlockLeaves(g, els, no);
      LeavesThree(SitesBehind(g, opening), SitesBehind(g, Alone(opening)), HidesBehind(g, opening, true),
                  a, x, f, b, y, h);
  }

  lemma LeavesThree(a: seq<nat>, x: seq<nat>, f: bool, b: seq<nat>, y: seq<nat>, h: bool,
                    c: seq<nat>, z: seq<nat>, k: bool)
    requires Leaves(a, x, f) && Leaves(b, y, h) && Leaves(c, z, k)
    ensures Leaves(a + (b + c), x + (y + z), f || h || k)
  {
    LeavesBoth(b, y, h, c, z, k);
    LeavesBoth(a, x, f, b + c, y + z, h || k);
  }

  lemma {:induction false} BareBlockLeaves(g: Grammar, lead: Stmt, body: seq<Node>)
    ensures Leaves(SitesBehind(g, lead) + Sites(g, body), SitesBehind(g, Alone(lead)) + Sites(g, Bare(body)),
                   HidesBehind(g, lead, true) || Hides(g, body, true))
    decreases body, 1
  {
    LeavesBehind(g, lead);
    BareLeaves(g, body);
    LeavesBoth(SitesBehind(g, lead), SitesBehind(g, Alone(lead)), HidesBehind(g, lead, true),
               Sites(g, body), Sites(g, Bare(body)), Hides(g, body, true));
  }

  /** Over-collection is safe and under-collection has one cause. Whatever the environments, the walk
      never visits more commands than the script runs, and it visits the same ones, line by line and
      as often, if and only if no statement that can run has a command word behind its keyword. */
  lemma WalkSeesAll(g: Grammar, nodes: seq<Node>, env: Env, other: Env)
    requires WellFormed(g, nodes)
    ensures var seen, run := Lines(Flat(g, Print(g, nodes), env).visits), Lines(Run(g, nodes, other).visits);
            |seen| <= |run| && (seen == run <==> !Hides(g, nodes, true))
  {
    WalkPrinted(g, nodes, env);
    RunSites(g, Bare(nodes), env);
    RunSites(g, nodes, other);
    BareLeaves(g, nodes);
  }

  /** With nothing at all behind a keyword, assignments included, the words and the environment agree
      too: the walk is the run. */
  lemma WalkIsRun(g: Grammar, nodes: seq<Node>, env: Env)
    requires WellFormed(g, nodes) && !Hides(g, nodes, false)
    ensures Flat(g, Print(g, nodes), env) == Run(g, nodes, env)
  {
    WalkPrinted(g, nodes, env);
    BareRuns(g, nodes, env);
  }

  lemma {:induction false} BareRuns(g: Grammar, nodes: seq<Node>, env: Env)
    requires !Hides(g, nodes, false)
    ensures Run(g, Bare(nodes), env) == Run(g, nodes, env)
    decreases nodes, 0
  {
    if nodes != [] {
      BareNodeRuns(g, nodes[0], env);
      BareRuns(g, nodes[1..], RunNode(g, nodes[0], env).env);
      assert Bare(nodes)[0] == BareNode(nodes[0]) && Bare(nodes)[1..] == Bare(nodes[1..]);
    }
  }

  lemma {:induction false} BareNodeRuns(g: Grammar, n: Node, env: Env)
    requires !HidesNode(g, n, false)
    ensures RunNode(g, BareNode(n), env) == RunNode(g, n, env)
    decreases n, 1
  {
    match n
    case Command(_, _) =>
    case Keyword(word) => AloneRunsNothing(g, word, env);
    case ForIn(_, _, name, words, doing, body, _) =>
      if words != [] { BareEachRuns(g, doing, body, name, ExpandAll(g, words, env), env); }
    case While(opening, doing, body, _) =>
      AloneRunsNothing(g, opening, env);
      BareBlockRuns(g, doing, body, env);
    case ForArgs(_, doing, body, _) => BareBlockRuns(g, doing, body, env);
    case If(opening, thn, yes, els, no, _) =>
      AloneRunsNothing(g, opening, env);
      BareBlockRuns(g, thn, yes, env);
      BareBlockRuns(g, els, no, RunBlock(g, thn, yes, env).env);
  }

  lemma {:induction false} BareBlockRuns(g: Grammar, lead: Stmt, body: seq<Node>, env: Env)
    requires !HidesBehind(g, lead, false) && !Hides(g, body, false)
    ensures RunBlock(g, Alone(lead), Bare(body), env) == RunBlock(g, lead, body, env)
    decreases body, 1
  {
    AloneRunsNothing(g, lead, env);
    BareRuns(g, body, env);
  }

  lemma {:induction false} BareEachRuns(g: Grammar, doing: Stmt, body: seq<Node>, name: string, values: seq<string>,
                                        env: Env)
    requires !HidesBehind(g, doing, false) && !Hides(g, body, false)
    ensures RunEach(g, Alone(doing), Bare(body), name, values, env) == RunEach(g, doing, body, name, values, env)
    decreases body, 2, |values|
  {
    if values != [] {
      BareBlockRuns(g, doing, body, env[name := values[0]]);
      BareEachRuns(g, doing, body, name, values[1..], env);
    }
  }

  /** The failing family in its usual dress: a loop written with its command on the line of its `do`.
      The shell runs the command once a word; the walk visits nothing. */
  lemma OneLineLoopIsMissed(g: Grammar, line: nat, keyword: string, name: string, words: seq<string>, lead: string,
                            command: seq<string>, closing: Stmt, env: Env)
    requires keyword in g.lists && keyword != g.listing && name != g.listing && KindOf(g, closing).Closer?
    requires lead in g.leads && KindOf(g, Stmt(line, [lead])).Stepped?
    requires KindOf(g, Stmt(line, command)).Plain? && command[0] !in g.leads && Prefix(g, command) < |command|
    ensures var loop := [ForIn(line, keyword, name, words, Stmt(line, [lead] + command), [], closing)];
            WellFormed(g, loop) && Flat(g, Print(g, loop), env).visits == []
            && Lines(Run(g, loop, env).visits) == Times(|words|, [line])
  {
    var doing := Stmt(line, [lead] + command);
    var loop := [ForIn(line, keyword, name, words, doing, [], closing)];
    assert doing.argv[1..] == command && Past(g, command) == command;
    assert LoopFree(g, doing) && Stepping(g, doing);
    assert WellFormedNode(g, loop[0]) && loop[1..] == [];
    CommandBehind(g, line, lead, command);
    RunSites(g, loop, env);
    assert SitesBehind(g, doing) + Sites(g, []) == [line];
    assert Sites(g, loop) == Times(|words|, [line]) + [];
    WalkPrinted(g, loop, env);
    RunSites(g, Bare(loop), env);
    NoSites(g, loop);
  }

  lemma {:induction false} TimesNothing(n: nat)
    ensures Times(n, []) == []
  {
    if n > 0 { TimesNothing(n - 1); }
  }

  lemma NoSites(g: Grammar, loop: seq<Node>)
    requires |loop| == 1 && loop[0].ForIn? && loop[0].body == []
    ensures Sites(g, Bare(loop)) == []
  {
    var bare := BareNode(loop[0]);
    assert Bare(loop) == [bare];
    assert loop[0].doing.argv != [] ==> bare.doing.argv[1..] == [];
    assert SitesBehind(g, bare.doing) == [];
    TimesNothing(|bare.words|);
  }

  // The gate's own table reads the words of the language as the tree above needs them.
  lemma ShellWords(line: nat, name: string, words: seq<string>)
    requires name != "in"
    ensures KindOf(SHELL, Header(SHELL, line, "for", name, words)).ListLoop?
    ensures KindOf(SHELL, Stmt(line, ["while"] + words)).Repeat?
    ensures KindOf(SHELL, Stmt(line, ["do"] + words)).Stepped? && KindOf(SHELL, Stmt(line, ["then"] + words)).Stepped?
    ensures KindOf(SHELL, Stmt(line, ["if"] + words)).Stepped? && KindOf(SHELL, Stmt(line, ["fi"])).Stepped?
    ensures KindOf(SHELL, Stmt(line, ["done"])).Closer? && KindOf(SHELL, Stmt(line, ["install"] + words)).Plain?
  {
    HeaderWords(SHELL, line, "for", name, words);
  }

  lemma CommandBehind(g: Grammar, line: nat, lead: string, command: seq<string>)
    requires lead in g.leads || lead in g.repeats
    requires KindOf(g, Stmt(line, command)).Plain? && command[0] !in g.leads
    ensures Behind(g, Stmt(line, [lead] + command)) == command
  {
    assert ([lead] + command)[1..] == command;
  }

  lemma NoAssignment(w: string)
    requires '=' !in w
    ensures Assignment(w).None?
  {}

  /** For the gate's own words: `for NAME in WORDS; do install ARGS; done`, the command on the line of
      its `do`, installs once a word and shows the gate nothing. */
  lemma InstallBehindDoIsMissed(line: nat, name: string, words: seq<string>, args: seq<string>, env: Env)
    requires name != "in"
    ensures var loop := [ForIn(line, "for", name, words, Stmt(line, ["do", "install"] + args), [],
              Stmt(line, ["done"]))];
            WellFormed(SHELL, loop) && Flat(SHELL, Print(SHELL, loop), env).visits == []
            && Lines(Run(SHELL, loop, env).visits) == Times(|words|, [line])
  {
    var command := ["install"] + args;
    assert ["do", "install"] + args == ["do"] + command;
    ShellWords(line, name, args);
    NoAssignment(command[0]);
    OneLineLoopIsMissed(SHELL, line, "for", name, words, "do", command, Stmt(line, ["done"]), env);
  }

  // ------------------------------------------------------- what the words mean

  predicate IsName(n: string) {
    n != "" && NameStart(n[0]) && forall i | 0 <= i < |n| :: NameChar(n[i])
  }

  // A word as its author means it: text without a dollar sign, `$NAME`, `${NAME}`, and a dollar sign that
  // refers to nothing.
  datatype Part = Chars(s: string) | Var(name: string) | Braced(name: string) | Dollar

  function PartText(p: Part): string {
    match p
    case Chars(s) => s
    case Var(name) => "$" + name
    case Braced(name) => "${" + name + "}"
    case Dollar => "$"
  }

  function WordText(ps: seq<Part>): string {
    if ps == [] then "" else PartText(ps[0]) + WordText(ps[1..])
  }

  // What follows a dollar sign opens a reference.
  ghost predicate Refers(rest: string) {
    exists n | IsName(n) :: n <= rest || ("{" + n + "}") <= rest
  }

  // The parts are what a reader of the printed word sees: no name runs on into the text behind it.
  ghost predicate Written(ps: seq<Part>) {
    ps == [] || (Written(ps[1..]) && WrittenPart(ps[0], WordText(ps[1..])))
  }

  ghost predicate WrittenPart(p: Part, rest: string) {
    match p
    case Chars(s) => '$' !in s
    case Var(name) => IsName(name) && (rest == "" || !NameChar(rest[0]))
    case Braced(name) => IsName(name)
    case Dollar => !Refers(rest)
  }

  // A name the environment does not hold is left as it was written.
  function Meaning(ps: seq<Part>, env: Env): string {
    if ps == [] then "" else PartMeaning(ps[0], env) + Meaning(ps[1..], env)
  }

  function PartMeaning(p: Part, env: Env): string {
    match p
    case Chars(s) => s
    case Var(name) => if name in env then env[name] else "$" + name
    case Braced(name) => if name in env then env[name] else "${" + name + "}"
    case Dollar => "$"
  }

  lemma {:induction false} NameTailIs(n: string, rest: string)
    requires (forall i | 0 <= i < |n| :: NameChar(n[i])) && (rest == "" || !NameChar(rest[0]))
    ensures NameTail(n + rest) == n
  {
    if n == "" {
      assert n + rest == rest;
    } else {
      assert (n + rest)[0] == n[0] && (n + rest)[1..] == n[1..] + rest;
      NameTailIs(n[1..], rest);
    }
  }

  lemma NameIs(n: string, rest: string)
    requires IsName(n) && (rest == "" || !NameChar(rest[0]))
    ensures Name(n + rest) == n
  {
    assert (n + rest)[0] == n[0];
    NameTailIs(n, rest);
  }

  lemma {:induction false} NameTailOf(s: string)
    ensures forall i | 0 <= i < |NameTail(s)| :: NameChar(NameTail(s)[i])
    ensures |NameTail(s)| < |s| ==> !NameChar(s[|NameTail(s)|])
  {
    if s != "" && NameChar(s[0]) {
      NameTailOf(s[1..]);
      var n := NameTail(s[1..]);
      assert NameTail(s) == [s[0]] + n;
      assert |n| < |s| - 1 ==> s[1..][|n|] == s[|n| + 1];
    }
  }

  lemma NameOf(s: string)
    ensures Name(s) != "" ==> IsName(Name(s)) && (|Name(s)| < |s| ==> !NameChar(s[|Name(s)|]))
    ensures Name(s) == "" <==> s == "" || !NameStart(s[0])
  {
    NameTailOf(s);
    if s != "" && NameStart(s[0]) { assert NameTail(s) == [s[0]] + NameTail(s[1..]); }
  }

  lemma {:induction false} ExpandChars(s: string, rest: string, env: Env)
    requires '$' !in s
    ensures Expand(s + rest, env) == s + Expand(rest, env)
  {
    if s == "" {
      assert s + rest == rest;
    } else {
      var first, more := [s[0]], s[1..];
      assert s == first + more;
      ExpandChars(more, rest, env);
      ExpandOne(s[0], more + rest, env);
      Regroup(first, more, rest);
      Regroup(first, more, Expand(rest, env));
    }
  }

  lemma ExpandOne(c: char, rest: string, env: Env)
    requires c != '$'
    ensures Expand([c] + rest, env) == [c] + Expand(rest, env)
  {
    assert ([c] + rest)[1..] == rest;
  }

  lemma ExpandVar(name: string, rest: string, env: Env)
    requires IsName(name) && (rest == "" || !NameChar(rest[0]))
    ensures Expand("$" + name + rest, env) == PartMeaning(Var(name), env) + Expand(rest, env)
  {
    var w := "$" + name + rest;
    assert w[1..] == name + rest;
    NameIs(name, rest);
    assert w[1] == name[0] && w[1] != '{';
    assert w[..|name| + 1] == "$" + name && w[|name| + 1..] == rest;
  }

  lemma ExpandBraced(name: string, rest: string, env: Env)
    requires IsName(name)
    ensures Expand("${" + name + "}" + rest, env) == PartMeaning(Braced(name), env) + Expand(rest, env)
  {
    var w := "${" + name + "}" + rest;
    assert w[2..] == name + ("}" + rest);
    NameIs(name, "}" + rest);
    assert w[|name| + 2] == '}';
    assert w[..|name| + 3] == "${" + name + "}" && w[|name| + 3..] == rest;
  }

  // What expansion itself takes for a reference behind a dollar sign.
  predicate Matches(rest: string) {
    Name(rest) != "" || (rest != "" && rest[0] == '{' && BracedName(rest[1..]))
  }

  predicate BracedName(s: string) {
    Name(s) != "" && |Name(s)| < |s| && s[|Name(s)|] == '}'
  }

  lemma MatchRefers(rest: string)
    requires Matches(rest)
    ensures Refers(rest)
  {
    if Name(rest) != "" {
      NameOf(rest);
      assert Name(rest) <= rest;
    } else {
      var n := Name(rest[1..]);
      NameOf(rest[1..]);
      assert rest[..|n| + 2] == "{" + n + "}";
      assert ("{" + n + "}") <= rest;
    }
  }

  lemma NameMatches(n: string, rest: string)
    requires IsName(n) && n <= rest
    ensures Matches(rest)
  {
    NameOf(rest);
    assert rest[0] == n[0];
  }

  lemma BracedMatches(n: string, rest: string)
    requires IsName(n) && ("{" + n + "}") <= rest
    ensures Matches(rest)
  {
    var tail := rest[|n| + 2..];
    assert rest == "{" + n + "}" + tail;
    assert rest[1..] == n + ("}" + tail);
    NameIs(n, "}" + tail);
  }

  lemma MatchesExactly(rest: string)
    ensures Matches(rest) <==> Refers(rest)
  {
    if Matches(rest) { MatchRefers(rest); }
    if n :| IsName(n) && (n <= rest || ("{" + n + "}") <= rest) {
      if n <= rest { NameMatches(n, rest); } else { BracedMatches(n, rest); }
    }
  }

  lemma ExpandDollar(rest: string, env: Env)
    requires !Refers(rest)
    ensures Expand("$" + rest, env) == "$" + Expand(rest, env)
  {
    MatchesExactly(rest);
    ExpandLone("$" + rest, rest, env);
  }

  lemma ExpandLone(w: string, rest: string, env: Env)
    requires w == "$" + rest && !Matches(rest)
    ensures Expand(w, env) == "$" + Expand(rest, env)
  {
    assert w[1..] == rest;
    if rest != "" && rest[0] == '{' {
      assert w[2..] == rest[1..];
      assert |Name(rest[1..])| < |rest| - 1 ==> w[|Name(rest[1..])| + 2] == rest[1..][|Name(rest[1..])|];
    }
  }

  /** Expansion gives back what was meant: text as it stands, the value of each `$NAME` and `${NAME}` the
      environment holds, and the reference itself where it holds none. */
  lemma {:induction false} ExpandMeans(ps: seq<Part>, env: Env)
    requires Written(ps)
    ensures Expand(WordText(ps), env) == Meaning(ps, env)
  {
    if ps != [] {
      var rest := WordText(ps[1..]);
      ExpandMeans(ps[1..], env);
      match ps[0]
      case Chars(s) => ExpandChars(s, rest, env);
      case Var(name) => ExpandVar(name, rest, env);
      case Braced(name) => ExpandBraced(name, rest, env);
      case Dollar => ExpandDollar(rest, env);
    }
  }

  /** Every word has such a reading, so nothing is left unsaid. */
  lemma {:induction false} EveryWordWritten(w: string) returns (ps: seq<Part>)
    ensures Written(ps) && WordText(ps) == w
    decreases |w|
  {
    if w == "" {
      ps := [];
    } else {
      var p, rest := FirstPart(w);
      ps := EveryWordWritten(rest);
      ps := WithPart(p, ps, w);
    }
  }

  lemma FirstPart(w: string) returns (p: Part, rest: string)
    requires w != ""
    ensures w == PartText(p) + rest && WrittenPart(p, rest) && |rest| < |w|
  {
    rest := w[1..];
    assert w == [w[0]] + rest;
    if w[0] != '$' {
      p := Chars([w[0]]);
    } else if Matches(rest) {
      p, rest := FirstReference(rest);
    } else {
      p := Dollar;
      MatchesExactly(rest);
    }
  }

  lemma FirstReference(s: string) returns (p: Part, rest: string)
    requires Matches(s)
    ensures "$" + s == PartText(p) + rest && WrittenPart(p, rest) && |rest| < |s|
  {
    if Name(s) != "" {
      NameOf(s);
      p, rest := Var(Name(s)), s[|Name(s)|..];
      VarFirst(s, Name(s), rest);
    } else {
      NameOf(s[1..]);
      p, rest := Braced(Name(s[1..])), s[|Name(s[1..])| + 2..];
      BracedFirst(s, Name(s[1..]), rest);
    }
  }

  lemma VarFirst(s: string, n: string, rest: string)
    requires n <= s && rest == s[|n|..]
    ensures "$" + s == "$" + n + rest
  {
    assert s == n + rest;
  }

  lemma BracedFirst(s: string, n: string, rest: string)
    requires |n| + 2 <= |s| && s[0] == '{' && s[1..][..|n|] == n && s[1..][|n|] == '}' && rest == s[|n| + 2..]
    ensures "$" + s == "${" + n + "}" + rest
  {
    assert s[1..|n| + 1] == s[1..][..|n|];
    assert s == "{" + n + "}" + rest;
  }

  lemma WithPart(p: Part, rest: seq<Part>, w: string) returns (ps: seq<Part>)
    requires Written(rest) && WrittenPart(p, WordText(rest)) && w == PartText(p) + WordText(rest)
    ensures Written(ps) && WordText(ps) == w
  {
    ps := [p] + rest;
    assert ps[1..] == rest;
  }

  /** An assignment is a name, an equals sign and anything at all. */
  lemma AssignmentExactly(w: string, n: string, v: string)
    ensures Assignment(w) == Some((n, v)) <==> IsName(n) && w == n + ("=" + v)
  {
    if IsName(n) && w == n + ("=" + v) { AssignmentBack(w, n, v); }
    if Assignment(w) == Some((n, v)) { AssignmentSplit(w, n, v); }
  }

  lemma AssignmentBack(w: string, n: string, v: string)
    requires IsName(n) && w == n + ("=" + v)
    ensures Assignment(w) == Some((n, v))
  {
    NameIs(n, "=" + v);
    assert w[|n| + 1..] == v;
  }

  lemma AssignmentSplit(w: string, n: string, v: string)
    requires Assignment(w) == Some((n, v))
    ensures IsName(n) && w == n + ("=" + v)
  {
    AssignmentParts(w, n, v);
    NameOf(w);
    CutAt(w, |n|);
    assert "=" + v == ['='] + v;
  }

  lemma AssignmentParts(w: string, n: string, v: string)
    requires Assignment(w) == Some((n, v))
    ensures n == Name(w) && n != "" && |n| < |w| && n == w[..|n|] && w[|n|] == '=' && v == w[|n| + 1..]
  {}

  lemma CutAt(w: string, at: nat)
    requires at < |w|
    ensures w == w[..at] + ([w[at]] + w[at + 1..])
  {}

  function WordTexts(words: seq<seq<Part>>): (r: seq<string>)
    ensures |r| == |words| && forall i | 0 <= i < |words| :: r[i] == WordText(words[i])
  {
    if words == [] then [] else [WordText(words[0])] + WordTexts(words[1..])
  }

  function Meanings(words: seq<seq<Part>>, env: Env): (r: seq<string>)
    ensures |r| == |words| && forall i | 0 <= i < |words| :: r[i] == Meaning(words[i], env)
  {
    if words == [] then [] else [Meaning(words[0], env)] + Meanings(words[1..], env)
  }

  ghost predicate AllWritten(words: seq<seq<Part>>) {
    forall i | 0 <= i < |words| :: Written(words[i])
  }

  // The words expand and assign as the gate's own do.
  ghost predicate ShellLike(g: Grammar) {
    g.expand == Expand && g.assignment == Assignment
  }

  lemma WordsMean(g: Grammar, words: seq<seq<Part>>, env: Env)
    requires ShellLike(g) && AllWritten(words)
    ensures ExpandAll(g, WordTexts(words), env) == Meanings(words, env)
  {
    forall i | 0 <= i < |words| { ExpandMeans(words[i], env); }
  }

  // `NAME=VALUE`.
  datatype Binding = Binding(name: string, value: seq<Part>)

  function BindingText(b: Binding): string {
    b.name + ("=" + WordText(b.value))
  }

  function BindingTexts(bs: seq<Binding>): (r: seq<string>)
    ensures |r| == |bs| && forall i | 0 <= i < |bs| :: r[i] == BindingText(bs[i])
  {
    if bs == [] then [] else BindingTexts(bs[..|bs| - 1]) + [BindingText(bs[|bs| - 1])]
  }

  ghost predicate Binds(b: Binding, env: Env, name: string) {
    b.name == name && !StartsWith(Meaning(b.value, env), "(")
  }

  // The last assignment that binds its name.
  ghost predicate LastFor(bs: seq<Binding>, env: Env, k: nat)
    requires k < |bs|
  {
    Binds(bs[k], env, bs[k].name) && forall j | k < j < |bs| :: !Binds(bs[j], env, bs[k].name)
  }

  /** `inner` is `env` after the assignments: a name has the value of the last one that binds it, read in
      `env`, an array binding nothing; every other name is as before. */
  ghost predicate After(bs: seq<Binding>, env: Env, inner: Env) {
    (forall k | 0 <= k < |bs| && LastFor(bs, env, k) ::
       bs[k].name in inner && inner[bs[k].name] == Meaning(bs[k].value, env))
    && (forall name | forall k | 0 <= k < |bs| :: !Binds(bs[k], env, name) ::
          (name in inner <==> name in env) && (name in env ==> inner[name] == env[name]))
  }

  ghost predicate BindingsWritten(bs: seq<Binding>) {
    forall i | 0 <= i < |bs| :: IsName(bs[i].name) && Written(bs[i].value)
  }

  // Not an assignment: nothing of the form `NAME=`.
  ghost predicate Unassigning(word: string) {
    forall n, v | IsName(n) :: word != n + ("=" + v)
  }

  lemma UnassigningIs(word: string)
    requires Unassigning(word)
    ensures Assignment(word).None?
  {
    if Assignment(word).Some? { AssignmentExactly(word, Assignment(word).value.0, Assignment(word).value.1); }
  }

  lemma BindingReads(g: Grammar, b: Binding, env: Env)
    requires ShellLike(g) && IsName(b.name) && Written(b.value)
    ensures g.assignment(BindingText(b)) == Some((b.name, WordText(b.value)))
    ensures g.expand(WordText(b.value), env) == Meaning(b.value, env)
  {
    AssignmentExactly(BindingText(b), b.name, WordText(b.value));
    ExpandMeans(b.value, env);
  }

  lemma BindingsAssign(g: Grammar, bs: seq<Binding>)
    requires ShellLike(g) && BindingsWritten(bs)
    ensures forall i | 0 <= i < |bs| :: g.assignment(BindingTexts(bs)[i]).Some?
  {
    forall i | 0 <= i < |bs| { BindingReads(g, bs[i], map[]); }
  }

  lemma {:induction false} BindingsMean(g: Grammar, bs: seq<Binding>, env: Env)
    requires ShellLike(g) && BindingsWritten(bs)
    requires forall i | 0 <= i < |bs| :: g.assignment(BindingTexts(bs)[i]).Some?
    ensures After(bs, env, env + Bindings(g, BindingTexts(bs), env))
  {
    if bs != [] {
      var front := bs[..|bs| - 1];
      BindingsAssign(g, front);
      BindingsMean(g, front, env);
      LastBinding(g, bs, env, BindingTexts(bs));
      AfterOneMore(bs, env, env + Bindings(g, BindingTexts(front), env), env + Bindings(g, BindingTexts(bs), env));
    }
  }

  function OneMore(before: Env, b: Binding, env: Env): Env {
    if StartsWith(Meaning(b.value, env), "(") then before else before[b.name := Meaning(b.value, env)]
  }

  lemma LastBinding(g: Grammar, bs: seq<Binding>, env: Env, texts: seq<string>)
    requires ShellLike(g) && BindingsWritten(bs) && bs != [] && texts == BindingTexts(bs)
    requires forall i | 0 <= i < |bs| :: g.assignment(texts[i]).Some?
    ensures var front := BindingTexts(bs[..|bs| - 1]);
            front == texts[..|bs| - 1]
            && env + Bindings(g, texts, env) == OneMore(env + Bindings(g, front, env), bs[|bs| - 1], env)
  {
    var b := bs[|bs| - 1];
    BindingReads(g, b, env);
    BindingsUnfold(g, texts, env, b.name, WordText(b.value), Meaning(b.value, env));
    Overlaid(env, Bindings(g, texts[..|bs| - 1], env), b.name, Meaning(b.value, env));
  }

  lemma BindingsUnfold(g: Grammar, words: seq<string>, env: Env, name: string, raw: string, value: string)
    requires words != [] && forall i | 0 <= i < |words| :: g.assignment(words[i]).Some?
    requires g.assignment(words[|words| - 1]) == Some((name, raw)) && g.expand(raw, env) == value
    ensures var before := Bindings(g, words[..|words| - 1], env);
            Bindings(g, words, env) == if StartsWith(value, "(") then before else before[name := value]
  {}

  lemma Overlaid(env: Env, more: Env, name: string, value: string)
    ensures env + more[name := value] == (env + more)[name := value]
  {}

  lemma AfterOneMore(bs: seq<Binding>, env: Env, before: Env, inner: Env)
    requires bs != [] && After(bs[..|bs| - 1], env, before) && inner == OneMore(before, bs[|bs| - 1], env)
    ensures After(bs, env, inner)
  {
    forall k | 0 <= k < |bs| && LastFor(bs, env, k)
      ensures bs[k].name in inner && inner[bs[k].name] == Meaning(bs[k].value, env)
    {
      AfterBound(bs, env, before, inner, k);
    }
    forall name | forall k | 0 <= k < |bs| :: !Binds(bs[k], env, name)
      ensures (name in inner <==> name in env) && (name in env ==> inner[name] == env[name])
    {
      AfterOther(bs, env, before, inner, name);
    }
  }

  lemma AfterBound(bs: seq<Binding>, env: Env, before: Env, inner: Env, k: nat)
    requires bs != [] && After(bs[..|bs| - 1], env, before) && inner == OneMore(before, bs[|bs| - 1], env)
    requires k < |bs| && LastFor(bs, env, k)
    ensures bs[k].name in inner && inner[bs[k].name] == Meaning(bs[k].value, env)
  {
    var n := |bs| - 1;
    if k < n {
      assert bs[..n][k] == bs[k] && LastFor(bs[..n], env, k);
      assert !Binds(bs[n], env, bs[k].name);
    }
  }

  lemma AfterOther(bs: seq<Binding>, env: Env, before: Env, inner: Env, name: string)
    requires bs != [] && After(bs[..|bs| - 1], env, before) && inner == OneMore(before, bs[|bs| - 1], env)
    requires forall k | 0 <= k < |bs| :: !Binds(bs[k], env, name)
    ensures (name in inner <==> name in env) && (name in env ==> inner[name] == env[name])
  {
    var n := |bs| - 1;
    assert !Binds(bs[n], env, name);
    assert forall k | 0 <= k < n :: !Binds(bs[..n][k], env, name);
  }

  lemma {:induction false} PrefixIs(g: Grammar, argv: seq<string>, n: nat)
    requires n <= |argv| && forall i | 0 <= i < n :: g.assignment(argv[i]).Some?
    requires n < |argv| ==> g.assignment(argv[n]).None?
    ensures Prefix(g, argv) == n
  {
    if n > 0 {
      assert forall i | 0 <= i < n - 1 :: argv[1..][i] == argv[i + 1];
      PrefixIs(g, argv[1..], n - 1);
    }
  }

  /** One simple command, by what its words mean: assignments alone change the environment and are not
      visited; before a command word they hold for that command only, whose words are read with them. */
  lemma CommandMeans(g: Grammar, line: nat, bs: seq<Binding>, words: seq<seq<Part>>, env: Env) returns (inner: Env)
    requires ShellLike(g) && BindingsWritten(bs) && AllWritten(words)
    requires words != [] ==> Unassigning(WordText(words[0]))
    ensures After(bs, env, inner)
    ensures RunCommand(g, line, BindingTexts(bs) + WordTexts(words), env)
         == if words == [] then Outcome([], inner) else Outcome([Stmt(line, Meanings(words, inner))], env)
  {
    var argv := BindingTexts(bs) + WordTexts(words);
    BindingsAssign(g, bs);
    BindingsMean(g, bs, env);
    if words != [] { UnassigningIs(WordText(words[0])); }
    PrefixIs(g, argv, |bs|);
    assert argv[..|bs|] == BindingTexts(bs) && argv[|bs|..] == WordTexts(words);
    inner := env + Bindings(g, BindingTexts(bs), env);
    WordsMean(g, words, inner);
  }

  // A command line of a loop body, by its words.
  datatype Line = Line(line: nat, words: seq<seq<Part>>)

  ghost predicate Commands(g: Grammar, body: seq<Line>) {
    forall i | 0 <= i < |body| ::
      body[i].words != [] && AllWritten(body[i].words) && Unassigning(WordText(body[i].words[0]))
      && KindOf(g, Stmt(body[i].line, WordTexts(body[i].words))).Plain?
  }

  function CommandNodes(body: seq<Line>): seq<Node> {
    if body == [] then [] else [Command(body[0].line, WordTexts(body[0].words))] + CommandNodes(body[1..])
  }

  function BodyMeaning(body: seq<Line>, env: Env): (r: seq<Stmt>)
    ensures |r| == |body| && forall i | 0 <= i < |body| :: r[i] == Stmt(body[i].line, Meanings(body[i].words, env))
  {
    if body == [] then []
    else [Stmt(body[0].line, Meanings(body[0].words, env))] + BodyMeaning(body[1..], env)
  }

  lemma {:induction false} BodyRuns(g: Grammar, body: seq<Line>, env: Env)
    requires ShellLike(g) && Commands(g, body)
    ensures Run(g, CommandNodes(body), env) == Outcome(BodyMeaning(body, env), env)
    ensures WellFormed(g, CommandNodes(body)) && !Hides(g, CommandNodes(body), false)
  {
    if body != [] {
      OneCommandRuns(g, body[0], env);
      BodyRuns(g, body[1..], env);
    }
  }

  lemma OneCommandRuns(g: Grammar, c: Line, env: Env)
    requires ShellLike(g) && Commands(g, [c])
    ensures RunCommand(g, c.line, WordTexts(c.words), env) == Outcome([Stmt(c.line, Meanings(c.words, env))], env)
  {
    assert [c][0] == c;
    var inner := CommandMeans(g, c.line, [], c.words, env);
    AfterNothing(env, inner);
    assert [] + WordTexts(c.words) == WordTexts(c.words);
  }

  lemma AfterNothing(env: Env, inner: Env)
    requires After([], env, inner)
    ensures inner == env
  {
    assert forall name | name in inner || name in env :: name in inner && name in env && inner[name] == env[name];
  }

  // A loop over the words, with nothing behind its keywords.
  function ForLoop(line: nat, keyword: string, name: string, words: seq<seq<Part>>, lead: Stmt, body: seq<Line>,
                   closing: Stmt): Node {
    ForIn(line, keyword, name, WordTexts(words), lead, CommandNodes(body), closing)
  }

  lemma {:induction false} EachMeans(g: Grammar, lead: Stmt, body: seq<Line>, name: string, values: seq<string>,
                                     env: Env)
    requires ShellLike(g) && Commands(g, body) && |lead.argv| == 1
    ensures RunEach(g, lead, CommandNodes(body), name, values, env)
         == FlatMap((value: string) => BodyMeaning(body, env[name := value]), values)
  {
    if values != [] {
      var inner := env[name := values[0]];
      assert Alone(lead) == lead;
      AloneBlock(g, lead, CommandNodes(body), inner);
      BodyRuns(g, body, inner);
      EachMeans(g, lead, body, name, values[1..], env);
    }
  }

  /** A loop by what its words mean: each value the words of the list have, in order, takes the place of
      every `$NAME` and `${NAME}` of every command of the body, once through the body a value. */
  lemma ForSubstitutes(g: Grammar, line: nat, keyword: string, name: string, words: seq<seq<Part>>, lead: Stmt,
                       body: seq<Line>, closing: Stmt, env: Env)
    requires ShellLike(g) && AllWritten(words) && Commands(g, body) && |lead.argv| == 1
    requires keyword in g.lists && keyword != g.listing && name != g.listing && Stepping(g, lead)
    requires KindOf(g, closing).Closer?
    ensures var loop := [ForLoop(line, keyword, name, words, lead, body, closing)];
            WellFormed(g, loop)
            && Flat(g, Print(g, loop), env)
               == Outcome(FlatMap((value: string) => BodyMeaning(body, env[name := value]), Meanings(words, env)), env)
  {
    var node := ForLoop(line, keyword, name, words, lead, body, closing);
    BodyRuns(g, body, env);
    LoneLead(g, lead);
    WordsMean(g, words, env);
    EachMeans(g, lead, body, name, Meanings(words, env), env);
    NodeAlone(g, node, env);
  }

  lemma NodeAlone(g: Grammar, node: Node, env: Env)
    requires WellFormedNode(g, node) && !HidesNode(g, node, false)
    ensures WellFormed(g, [node]) && Flat(g, Print(g, [node]), env) == RunNode(g, node, env)
  {
    assert [node][1..] == [];
    WalkIsRun(g, [node], env);
    ThenNothing(env, RunNode(g, node, env));
  }

  lemma LoneLead(g: Grammar, lead: Stmt)
    requires |lead.argv| == 1
    ensures !HidesBehind(g, lead, false)
  {
    assert lead.argv[1..] == [];
  }

  /** The same for the gate's own words: `for NAME in WORDS; do`, commands, `done`. */
  lemma ForLoopSubstitutes(line: nat, name: string, words: seq<seq<Part>>, body: seq<Line>, env: Env)
    requires name != "in" && AllWritten(words) && Commands(SHELL, body)
    ensures var loop := [ForLoop(line, "for", name, words, Stmt(line, ["do"]), body, Stmt(line, ["done"]))];
            Flat(SHELL, Print(SHELL, loop), env).visits
            == FlatMap((value: string) => BodyMeaning(body, env[name := value]), Meanings(words, env))
  {
    var lead, closing := Stmt(line, ["do"]), Stmt(line, ["done"]);
    ShellWords(line, name, []);
    assert lead.argv[1..] == [] && ["do"] + [] == ["do"];
    ForSubstitutes(SHELL, line, "for", name, words, lead, body, closing, env);
  }
}
