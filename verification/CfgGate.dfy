/**
 The module wiring lint's reading of `#[cfg(...)]`: a scanner that splits arguments at
 top-level commas, and a test whether an expression can only hold in test builds.
 */
module CfgGate {
  import opened Options

  // ---------- the scanner ----------

  datatype Scan = Scan(depth: nat, inString: bool, escaped: bool)
  {
    /** A comma read here separates arguments. */
    predicate TopLevel() { !inString && depth == 0 }

    function Read(ch: char): Scan {
      if inString then
        if escaped then this.(escaped := false)
        else if ch == '\\' then this.(escaped := true)
        else if ch == '"' then this.(inString := false)
        else this
      else
        match ch
        case '"' => this.(inString := true)
        case '(' => this.(depth := depth + 1)
        case ')' => this.(depth := if depth == 0 then 0 else depth - 1)
        case _ => this
    }
  }

  const BEGIN: Scan := Scan(0, false, false)

  function Outside(depth: nat): Scan { Scan(depth, false, false) }

  function Inside(depth: nat): Scan { Scan(depth, true, false) }

  function Run(st: Scan, s: string): Scan {
    if s == [] then st else Run(st, s[..|s| - 1]).Read(s[|s| - 1])
  }

  /** The pieces ended by top-level commas so far, and the piece being read. */
  datatype Cuts = Cuts(done: seq<string>, current: string)
  {
    function Pieces(): seq<string> { done + [current] }
  }

  function Cut(s: string): (r: Cuts)
    ensures |r.current| <= |s|
    ensures forall p <- r.done :: |p| <= |s|
  {
    if s == [] then Cuts([], "")
    else
      var front, ch := s[..|s| - 1], s[|s| - 1];
      var before := Cut(front);
      if ch == ',' && Run(BEGIN, front).TopLevel() then Cuts(before.done + [before.current], "")
      else Cuts(before.done, before.current + [ch])
  }

  /** The characters with the Unicode property White_Space, which trimming removes. */
  predicate IsWhitespace(ch: char) {
    var n := ch as int;
    || 0x9 <= n <= 0xD || n == 0x20 || n == 0x85 || n == 0xA0 || n == 0x1680
    || 0x2000 <= n <= 0x200A || n == 0x2028 || n == 0x2029 || n == 0x202F || n == 0x205F || n == 0x3000
  }

  function TrimStart(s: string): (r: string)
    ensures |r| <= |s|
    ensures r == [] || !IsWhitespace(r[0])
  {
    if s != [] && IsWhitespace(s[0]) then TrimStart(s[1..]) else s
  }

  function TrimEnd(s: string): (r: string)
    ensures |r| <= |s|
    ensures r == [] || !IsWhitespace(r[|r| - 1])
  {
    if s != [] && IsWhitespace(s[|s| - 1]) then TrimEnd(s[..|s| - 1]) else s
  }

  function Trim(s: string): (r: string)
    ensures |r| <= |s|
  {
    TrimEnd(TrimStart(s))
  }

  function TrimAll(pieces: seq<string>): (r: seq<string>)
    ensures |r| == |pieces|
  {
    seq(|pieces|, i requires 0 <= i < |pieces| => Trim(pieces[i]))
  }

  function SplitArgs(expr: string): (r: seq<string>)
    ensures forall p <- r :: |p| <= |expr|
  {
    TrimAll(Cut(expr).Pieces())
  }

  lemma CutStep(expr: string, index: nat)
    requires index < |expr|
    ensures Run(BEGIN, expr[..index + 1]) == Run(BEGIN, expr[..index]).Read(expr[index])
    ensures var before, ch := Cut(expr[..index]), expr[index];
            Cut(expr[..index + 1]) == if ch == ',' && Run(BEGIN, expr[..index]).TopLevel()
                                      then Cuts(before.done + [before.current], "")
                                      else Cuts(before.done, before.current + [ch])
  {
    assert expr[..index + 1][..index] == expr[..index];
  }

  lemma TrimMore(pieces: seq<string>, last: string)
    ensures TrimAll(pieces + [last]) == TrimAll(pieces) + [Trim(last)]
  {
  }

  lemma SliceMore(s: string, start: nat, index: nat)
    requires start <= index < |s|
    ensures s[start..index + 1] == s[start..index] + [s[index]]
  {
  }

  /** What the loop has done with the first `index` characters. */
  ghost predicate Progress(expr: string, index: nat, start: nat, st: Scan, args: seq<string>) {
    && start <= index <= |expr| && st == Run(BEGIN, expr[..index])
    && args == TrimAll(Cut(expr[..index]).done) && expr[start..index] == Cut(expr[..index]).current
  }

  lemma ProgressCuts(expr: string, index: nat, start: nat, st: Scan, args: seq<string>)
    requires Progress(expr, index, start, st, args) && index < |expr| && expr[index] == ',' && st.TopLevel()
    ensures Progress(expr, index + 1, index + 1, st.Read(','), args + [Trim(expr[start..index])])
  {
    CutStep(expr, index);
    TrimMore(Cut(expr[..index]).done, expr[start..index]);
  }

  lemma ProgressReads(expr: string, index: nat, start: nat, st: Scan, args: seq<string>)
    requires Progress(expr, index, start, st, args) && index < |expr| && !(expr[index] == ',' && st.TopLevel())
    ensures Progress(expr, index + 1, start, st.Read(expr[index]), args)
  {
    CutStep(expr, index);
    SliceMore(expr, start, index);
  }

  lemma ProgressEnds(expr: string, start: nat, st: Scan, args: seq<string>)
    requires Progress(expr, |expr|, start, st, args)
    ensures args + [Trim(expr[start..])] == SplitArgs(expr)
  {
    assert expr[..|expr|] == expr && expr[start..] == expr[start..|expr|];
    TrimMore(Cut(expr).done, Cut(expr).current);
  }

  method SplitTopLevelCfgArgs(expr: string) returns (args: seq<string>)
    ensures args == SplitArgs(expr)
  {
    args := [];
    var start, st := 0, BEGIN;
    for index := 0 to |expr|
      invariant Progress(expr, index, start, st, args)
    {
      var ch := expr[index];
      if ch == ',' && st.TopLevel() {
        ProgressCuts(expr, index, start, st, args);
        args := args + [Trim(expr[start..index])];
        start := index + 1;
      } else {
        ProgressReads(expr, index, start, st, args);
      }
      st := st.Read(ch);
    }
    ProgressEnds(expr, start, st, args);
    args := args + [Trim(expr[start..])];
  }

  function Join(pieces: seq<string>): string {
    if pieces == [] then ""
    else if |pieces| == 1 then pieces[0]
    else Join(pieces[..|pieces| - 1]) + "," + pieces[|pieces| - 1]
  }

  lemma JoinLast(done: seq<string>, last: string)
    ensures Join(done + [last]) == if done == [] then last else Join(done) + "," + last
  {
    assert (done + [last])[..|done|] == done;
  }

  lemma JoinReads(c: Cuts, ch: char)
    ensures Join(Cuts(c.done, c.current + [ch]).Pieces()) == Join(c.Pieces()) + [ch]
  {
    JoinLast(c.done, c.current);
    JoinLast(c.done, c.current + [ch]);
  }

  lemma JoinCuts(c: Cuts)
    ensures Join(Cuts(c.done + [c.current], "").Pieces()) == Join(c.Pieces()) + ","
  {
    JoinLast(c.Pieces(), "");
  }

  /** Splitting loses nothing: the pieces joined by commas are the input, whatever it is. */
  lemma {:induction false} PiecesJoin(s: string)
    ensures Join(Cut(s).Pieces()) == s
  {
    if s != [] {
      var n := |s| - 1;
      var front, ch := s[..n], s[n];
      PiecesJoin(front);
      JoinReads(Cut(front), ch);
      JoinCuts(Cut(front));
      assert s == front + [ch];
    }
  }

  // ---------- printed expressions ----------

  datatype Cfg =
    | Flag(name: string)
    | KeyValue(name: string, value: string)
    | All(args: seq<Cfg>)
    | Any(args: seq<Cfg>)
    | Not(arg: Cfg)

  predicate IsIdentChar(ch: char) {
    !IsWhitespace(ch) && ch !in ['"', '\\', '(', ')', ',', '=']
  }

  predicate IsIdent(name: string) {
    name != [] && forall i :: 0 <= i < |name| ==> IsIdentChar(name[i])
  }

  predicate WellFormed(t: Cfg) {
    match t
    case Flag(name) => IsIdent(name)
    case KeyValue(name, _) => IsIdent(name)
    case All(args) => forall a <- args :: WellFormed(a)
    case Any(args) => forall a <- args :: WellFormed(a)
    case Not(arg) => WellFormed(arg)
  }

  function Escape(value: string): string {
    if value == [] then ""
    else
      var front, ch := Escape(value[..|value| - 1]), value[|value| - 1];
      if ch == '"' || ch == '\\' then front + ['\\', ch] else front + [ch]
  }

  function Print(t: Cfg): string {
    match t
    case Flag(name) => name
    case KeyValue(name, value) => name + "=\"" + Escape(value) + "\""
    case All(args) => "all(" + Join(PrintAll(args)) + ")"
    case Any(args) => "any(" + Join(PrintAll(args)) + ")"
    case Not(arg) => "not(" + Print(arg) + ")"
  }

  function PrintAll(args: seq<Cfg>): (r: seq<string>)
    ensures |r| == |args|
    ensures forall i :: 0 <= i < |args| ==> r[i] == Print(args[i])
  {
    if args == [] then [] else PrintAll(args[..|args| - 1]) + [Print(args[|args| - 1])]
  }

  /** Read from `st`, `s` ends in the state it began with, and none of its commas separates arguments. */
  ghost predicate Quiet(st: Scan, s: string) {
    Run(st, s) == st && NoCut(st, s)
  }

  ghost predicate NoCut(st: Scan, s: string) {
    forall i :: 0 <= i < |s| && s[i] == ',' ==> !Run(st, s[..i]).TopLevel()
  }

  lemma RunOne(st: Scan, ch: char)
    ensures Run(st, [ch]) == st.Read(ch)
  {
    assert [ch][..0] == [];
  }

  lemma {:induction false} RunAppend(st: Scan, a: string, b: string)
    ensures Run(st, a + b) == Run(Run(st, a), b)
  {
    if b == [] {
      assert a + b == a;
    } else {
      RunAppend(st, a, b[..|b| - 1]);
      assert (a + b)[..|a + b| - 1] == a + b[..|b| - 1];
    }
  }

  lemma RunSlice(st: Scan, a: string, b: string, i: nat)
    requires i <= |a| + |b|
    ensures Run(st, (a + b)[..i]) == if i < |a| then Run(st, a[..i]) else Run(Run(st, a), b[..i - |a|])
  {
    if i < |a| {
      assert (a + b)[..i] == a[..i];
    } else {
      assert (a + b)[..i] == a + b[..i - |a|];
      RunAppend(st, a, b[..i - |a|]);
    }
  }

  lemma NoCutAppend(st: Scan, a: string, b: string)
    requires NoCut(st, a) && NoCut(Run(st, a), b)
    ensures NoCut(st, a + b)
  {
    forall i | 0 <= i < |a + b| && (a + b)[i] == ',' ensures !Run(st, (a + b)[..i]).TopLevel() {
      RunSlice(st, a, b, i);
    }
  }

  lemma {:induction false} IdentQuiet(st: Scan, s: string)
    requires !st.inString && forall i :: 0 <= i < |s| ==> s[i] == '=' || IsIdentChar(s[i])
    ensures Quiet(st, s)
  {
    if s != [] {
      IdentQuiet(st, s[..|s| - 1]);
    }
  }

  /** An escaped value never ends the string it is in. */
  lemma {:induction false} EscapeQuiet(depth: nat, value: string)
    ensures Quiet(Inside(depth), Escape(value))
    ensures forall i :: 0 <= i <= |Escape(value)| ==> Run(Inside(depth), Escape(value)[..i]).inString
  {
    if value != [] {
      var front, ch := Escape(value[..|value| - 1]), value[|value| - 1];
      EscapeQuiet(depth, value[..|value| - 1]);
      var tail := if ch == '"' || ch == '\\' then ['\\', ch] else [ch];
      var s := front + tail;
      assert s == Escape(value);
      TailInside(depth, ch);
      forall i | 0 <= i <= |s| ensures Run(Inside(depth), s[..i]).inString {
        if i <= |front| {
          assert s[..i] == front[..i];
        } else {
          assert s[..i] == front + tail[..i - |front|];
          RunAppend(Inside(depth), front, tail[..i - |front|]);
        }
      }
      RunAppend(Inside(depth), front, tail);
    } else {
      assert Escape(value) == "";
    }
  }

  lemma TailInside(depth: nat, ch: char)
    ensures var tail := if ch == '"' || ch == '\\' then ['\\', ch] else [ch];
            && Run(Inside(depth), tail) == Inside(depth)
            && forall i :: 0 <= i <= |tail| ==> Run(Inside(depth), tail[..i]).inString
  {
    var tail := if ch == '"' || ch == '\\' then ['\\', ch] else [ch];
    assert tail[..0] == [];
    assert tail[..1] == [tail[0]] && [tail[0]][..0] == [];
    assert Run(Inside(depth), [tail[0]]) == Inside(depth).Read(tail[0]);
    assert tail[..|tail|] == tail;
  }

  lemma QuoteQuiet(depth: nat, value: string)
    ensures Quiet(Outside(depth), "\"" + Escape(value) + "\"")
  {
    var st, quoted := Outside(depth), "\"" + Escape(value);
    RunOne(st, '"');
    RunOne(Inside(depth), '"');
    EscapeQuiet(depth, value);
    RunAppend(st, "\"", Escape(value));
    NoCutAppend(st, "\"", Escape(value));
    RunAppend(st, quoted, "\"");
    NoCutAppend(st, quoted, "\"");
  }

  /** Text between parentheses after a name, quiet one level deeper, is quiet as a whole. */
  lemma CallQuiet(depth: nat, name: string, head: string, inner: string)
    requires IsIdent(name) && head == name + "(" && Quiet(Outside(depth + 1), inner)
    ensures Quiet(Outside(depth), head + inner + ")")
  {
    var st := Outside(depth);
    IdentQuiet(st, name);
    RunOne(st, '(');
    RunOne(Outside(depth + 1), ')');
    RunAppend(st, name, "(");
    NoCutAppend(st, name, "(");
    RunAppend(st, head, inner);
    NoCutAppend(st, head, inner);
    RunAppend(st, head + inner, ")");
    NoCutAppend(st, head + inner, ")");
  }

  lemma PairQuiet(depth: nat, name: string, value: string)
    requires IsIdent(name)
    ensures Quiet(Outside(depth), Print(KeyValue(name, value)))
  {
    IdentQuiet(Outside(depth), name + "=");
    QuoteQuiet(depth, value);
    var quoted := "\"" + Escape(value) + "\"";
    QuietAppend(Outside(depth), name + "=", quoted);
    assert Print(KeyValue(name, value)) == name + "=" + quoted;
  }

  lemma QuietAppend(st: Scan, a: string, b: string)
    requires Quiet(st, a) && Quiet(st, b)
    ensures Quiet(st, a + b)
  {
    RunAppend(st, a, b);
    NoCutAppend(st, a, b);
  }

  /** A printed expression is one piece at any depth. */
  lemma {:induction false} PrintQuiet(t: Cfg, depth: nat)
    requires WellFormed(t)
    ensures Quiet(Outside(depth), Print(t))
    decreases t
  {
    match t {
      case Flag(name) => IdentQuiet(Outside(depth), name);
      case KeyValue(name, value) => PairQuiet(depth, name, value);
      case All(args) =>
        ArgsQuiet(args, depth + 1);
        ListQuiet(depth, "all", "all(", Join(PrintAll(args)));
      case Any(args) =>
        ArgsQuiet(args, depth + 1);
        ListQuiet(depth, "any", "any(", Join(PrintAll(args)));
      case Not(arg) =>
        PrintQuiet(arg, depth + 1);
        ListQuiet(depth, "not", "not(", Print(arg));
    }
  }

  lemma ListQuiet(depth: nat, name: string, head: string, inner: string)
    requires (name == "all" && head == "all(") || (name == "any" && head == "any(") || (name == "not" && head == "not(")
    requires Quiet(Outside(depth + 1), inner)
    ensures Quiet(Outside(depth), head + inner + ")")
  {
    CallQuiet(depth, name, head, inner);
  }

  /** Below the top level the commas between arguments are quiet too. */
  lemma {:induction false} ArgsQuiet(args: seq<Cfg>, depth: nat)
    requires depth > 0 && forall a <- args :: WellFormed(a)
    ensures Quiet(Outside(depth), Join(PrintAll(args)))
    decreases args
  {
    if args != [] {
      var front, last := args[..|args| - 1], args[|args| - 1];
      assert last in args;
      PrintQuiet(last, depth);
      ArgsQuiet(front, depth);
      JoinLast(PrintAll(front), Print(last));
      if front != [] {
        var st, joined := Outside(depth), Join(PrintAll(front));
        RunOne(st, ',');
        QuietAppend(st, joined, ",");
        QuietAppend(st, joined + ",", Print(last));
      }
    }
  }

  // ---------- splitting undoes printing ----------

  lemma NoCutPrefix(st: Scan, p: string, n: nat)
    requires NoCut(st, p) && n <= |p|
    ensures NoCut(st, p[..n])
  {
    forall i | 0 <= i < n && p[..n][i] == ',' ensures !Run(st, p[..n][..i]).TopLevel() {
      assert p[..n][..i] == p[..i];
    }
  }

  lemma CutExtends(s: string, ch: char)
    requires ch == ',' ==> !Run(BEGIN, s).TopLevel()
    ensures Cut(s + [ch]) == Cuts(Cut(s).done, Cut(s).current + [ch])
  {
    assert (s + [ch])[..|s|] == s;
  }

  lemma AppendLast(a: string, p: string)
    requires p != []
    ensures a + p == a + p[..|p| - 1] + [p[|p| - 1]]
  {
  }

  /** A quiet text read at the top level only extends the current piece. */
  lemma {:induction false} CutQuiet(s: string, p: string)
    requires Run(BEGIN, s) == BEGIN && NoCut(BEGIN, p)
    ensures Cut(s + p) == Cuts(Cut(s).done, Cut(s).current + p)
  {
    if p == [] {
      assert s + p == s && Cut(s).current + p == Cut(s).current;
    } else {
      var n := |p| - 1;
      NoCutPrefix(BEGIN, p, n);
      CutQuiet(s, p[..n]);
      RunAppend(BEGIN, s, p[..n]);
      CutExtends(s + p[..n], p[n]);
      AppendLast(s, p);
      AppendLast(Cut(s).current, p);
    }
  }

  /** A comma and a quiet text after a complete list add one piece. */
  lemma CutMore(joined: string, p: string)
    requires Run(BEGIN, joined) == BEGIN && Quiet(BEGIN, p)
    ensures Run(BEGIN, joined + "," + p) == BEGIN
    ensures Cut(joined + "," + p) == Cuts(Cut(joined).Pieces(), p)
  {
    var s := joined + ",";
    assert s[..|joined|] == joined;
    CutQuiet(s, p);
    RunAppend(BEGIN, s, p);
    assert "" + p == p;
  }

  lemma {:induction false} CutJoined(args: seq<Cfg>)
    requires args != [] && forall a <- args :: WellFormed(a)
    ensures Run(BEGIN, Join(PrintAll(args))) == BEGIN
    ensures Cut(Join(PrintAll(args))).Pieces() == PrintAll(args)
  {
    var front, last := args[..|args| - 1], args[|args| - 1];
    assert last in args;
    PrintQuiet(last, 0);
    JoinLast(PrintAll(front), Print(last));
    if front == [] {
      CutQuiet("", Print(last));
      assert "" + Print(last) == Print(last);
    } else {
      CutJoined(front);
      CutMore(Join(PrintAll(front)), Print(last));
    }
  }

  predicate Tight(s: string) {
    s != [] && !IsWhitespace(s[0]) && !IsWhitespace(s[|s| - 1])
  }

  lemma PrintTight(t: Cfg)
    requires WellFormed(t)
    ensures Tight(Print(t)) && Trim(Print(t)) == Print(t)
  {
  }

  /** Splitting the printed arguments gives back exactly these arguments, at least one of them. */
  lemma SplitPrinted(args: seq<Cfg>)
    requires args != [] && forall a <- args :: WellFormed(a)
    ensures SplitArgs(Join(PrintAll(args))) == PrintAll(args)
  {
    CutJoined(args);
    forall i | 0 <= i < |args| ensures Trim(PrintAll(args)[i]) == PrintAll(args)[i] {
      PrintTight(args[i]);
    }
  }

  /** No argument at all is read as one empty argument. */
  lemma SplitNothing()
    ensures SplitArgs(Join(PrintAll([]))) == [""]
  {
    assert Cut("").Pieces() == [""];
  }

  // ---------- the gate ----------

  function StripPrefix(s: string, prefix: string): (r: Option<string>)
    ensures r.Some? <==> |prefix| <= |s| && s[..|prefix|] == prefix
    ensures r.Some? ==> s == prefix + r.value
  {
    if |prefix| <= |s| && s[..|prefix|] == prefix then Some(s[|prefix|..]) else None
  }

  function StripSuffix(s: string, suffix: string): (r: Option<string>)
    ensures r.Some? <==> |suffix| <= |s| && s[|s| - |suffix|..] == suffix
    ensures r.Some? ==> s == r.value + suffix
  {
    if |suffix| <= |s| && s[|s| - |suffix|..] == suffix then Some(s[..|s| - |suffix|]) else None
  }

  function Strip(s: string, prefix: string, suffix: string): (r: Option<string>)
    ensures r.Some? ==> s == prefix + r.value + suffix
  {
    var rest := StripPrefix(s, prefix);
    if rest.None? then None else StripSuffix(rest.value, suffix)
  }

  predicate CfgExprRequiresTest(expr: string)
    decreases |expr|
  {
    expr == "test"
    || (var inner := Strip(expr, "all(", ")");
        inner.Some? && exists arg <- SplitArgs(inner.value) :: CfgExprRequiresTest(arg))
  }

  predicate IsCfgTestGate(attr: string) {
    var body := Strip(attr, "#[cfg(", ")]");
    body.Some? && CfgExprRequiresTest(body.value)
  }

  /** The same question asked of the tree. */
  predicate RequiresTest(t: Cfg) {
    match t
    case Flag(name) => name == "test"
    case All(args) => exists a <- args :: RequiresTest(a)
    case _ => false
  }

  lemma StripBack(prefix: string, inner: string, suffix: string)
    ensures Strip(prefix + inner + suffix, prefix, suffix) == Some(inner)
  {
    var s := prefix + inner + suffix;
    assert s[..|prefix|] == prefix && s[|prefix|..] == inner + suffix;
    assert (inner + suffix)[|inner|..] == suffix;
  }

  lemma NotAll(s: string, i: nat)
    requires i < 4 && (i < |s| ==> s[i] != "all("[i])
    ensures Strip(s, "all(", ")").None?
  {
    if |s| >= 4 {
      assert s[..4][i] == s[i];
    }
  }

  lemma PairHead(name: string, value: string)
    requires IsIdent(name)
    ensures var s := Print(KeyValue(name, value)); s != "test" && Strip(s, "all(", ")").None?
  {
    var s := Print(KeyValue(name, value));
    assert s[|name|] == '=';
    assert |name| >= 4 ==> s[3] == name[3] && IsIdentChar(name[3]);
    NotAll(s, if |name| < 4 then |name| else 3);
  }

  lemma OtherHeads(t: Cfg)
    requires WellFormed(t) && !t.All? && t != Flag("test")
    ensures Print(t) != "test" && Strip(Print(t), "all(", ")").None?
  {
    match t {
      case Flag(name) => NotAll(name, 3);
      case KeyValue(name, value) => PairHead(name, value);
      case Any(_) => NotAll(Print(t), 1);
      case Not(_) => NotAll(Print(t), 0);
    }
  }

  lemma StripAll(inner: string)
    ensures CfgExprRequiresTest("all(" + inner + ")") <==> exists arg <- SplitArgs(inner) :: CfgExprRequiresTest(arg)
  {
    StripBack("all(", inner, ")");
    assert ("all(" + inner + ")")[0] == 'a';
  }

  /** The string test agrees with the tree test on every printed expression. */
  lemma {:induction false} GateReadsTree(t: Cfg)
    requires WellFormed(t)
    ensures CfgExprRequiresTest(Print(t)) <==> RequiresTest(t)
  {
    if t.All? {
      StripAll(Join(PrintAll(t.args)));
      if t.args == [] {
        SplitNothing();
        assert !CfgExprRequiresTest("");
      } else {
        SplitPrinted(t.args);
        forall a | a in t.args ensures CfgExprRequiresTest(Print(a)) <==> RequiresTest(a) {
          GateReadsTree(a);
        }
        ArgsAgree(t.args);
      }
    } else if t != Flag("test") {
      OtherHeads(t);
    }
  }

  lemma ArgsAgree(args: seq<Cfg>)
    requires forall a <- args :: CfgExprRequiresTest(Print(a)) <==> RequiresTest(a)
    ensures (exists arg <- PrintAll(args) :: CfgExprRequiresTest(arg)) <==> (exists a <- args :: RequiresTest(a))
  {
    var printed := PrintAll(args);
    if arg :| arg in printed && CfgExprRequiresTest(arg) {
      var i :| 0 <= i < |printed| && printed[i] == arg;
      assert args[i] in args;
    }
    if a :| a in args && RequiresTest(a) {
      var i :| 0 <= i < |args| && args[i] == a;
      assert printed[i] in printed && CfgExprRequiresTest(printed[i]);
    }
  }

  lemma GateReadsAttribute(t: Cfg)
    requires WellFormed(t)
    ensures IsCfgTestGate("#[cfg(" + Print(t) + ")]") <==> RequiresTest(t)
  {
    StripBack("#[cfg(", Print(t), ")]");
    GateReadsTree(t);
  }

  // ---------- what accepted expressions mean ----------

  /** A build configuration. */
  datatype Build = Build(flags: string -> bool, pairs: (string, string) -> bool)

  predicate Holds(t: Cfg, build: Build) {
    match t
    case Flag(name) => build.flags(name)
    case KeyValue(name, value) => build.pairs(name, value)
    case All(args) => forall a <- args :: Holds(a, build)
    case Any(args) => exists a <- args :: Holds(a, build)
    case Not(arg) => !Holds(arg, build)
  }

  ghost predicate ImpliesTest(t: Cfg) {
    forall build :: Holds(t, build) ==> build.flags("test")
  }

  lemma {:induction false} RequiredHolds(t: Cfg, build: Build)
    requires RequiresTest(t) && Holds(t, build)
    ensures build.flags("test")
  {
    if t.All? {
      var a :| a in t.args && RequiresTest(a);
      RequiredHolds(a, build);
    }
  }

  /** An accepted attribute holds only in builds with `test`. */
  lemma AcceptedOnlyInTests(t: Cfg)
    requires WellFormed(t) && IsCfgTestGate("#[cfg(" + Print(t) + ")]")
    ensures ImpliesTest(t)
  {
    GateReadsAttribute(t);
    forall build | Holds(t, build) ensures build.flags("test") {
      RequiredHolds(t, build);
    }
  }

  predicate Conjunctive(t: Cfg) {
    match t
    case All(args) => forall a <- args :: Conjunctive(a)
    case Any(_) => false
    case Not(_) => false
    case _ => true
  }

  /** The build in which everything but `test` is set. */
  ghost function AllButTest(): Build {
    Build(name => name != "test", (name, value) => true)
  }

  lemma {:induction false} HoldsWithoutTest(t: Cfg)
    requires Conjunctive(t) && !RequiresTest(t)
    ensures Holds(t, AllButTest())
  {
    if t.All? {
      forall a | a in t.args ensures Holds(a, AllButTest()) {
        HoldsWithoutTest(a);
      }
    }
  }

  /** For conjunctions the gate is exact. */
  lemma ExactOnConjunctions(t: Cfg)
    requires WellFormed(t) && Conjunctive(t)
    ensures IsCfgTestGate("#[cfg(" + Print(t) + ")]") <==> ImpliesTest(t)
  {
    GateReadsAttribute(t);
    if RequiresTest(t) {
      AcceptedOnlyInTests(t);
    } else {
      HoldsWithoutTest(t);
      assert !AllButTest().flags("test");
    }
  }

  /** Beyond them it may refuse an expression that does imply `test`. */
  lemma AnyTestRefused()
    ensures var t := Any([Flag("test")]);
            WellFormed(t) && ImpliesTest(t) && !IsCfgTestGate("#[cfg(" + Print(t) + ")]")
  {
    var t := Any([Flag("test")]);
    assert IsIdent("test");
    GateReadsAttribute(t);
    assert Flag("test") in t.args;
  }
}
