/** Writing the two dicts in the text format, and reading them back: for word names and whole-number values the
    text parser recovers exactly the dicts that were written, in their order. */
module TextRoundTrip {
  import opened Wrappers
  import opened Strings
  import opened TwoColumn
  import opened TextFormat

  predicate NoNewline(s: string) {
    forall i :: 0 <= i < |s| ==> s[i] != '\n'
  }

  /** Non-empty, with no whitespace at either end: `str.strip()` leaves it alone. */
  predicate Trimmed(s: string) {
    s != [] && !IsSpace(s[0]) && !IsSpace(s[|s| - 1])
  }

  /** A value the text format can write without a fraction. */
  predicate IsNatReal(v: real) {
    v >= 0.0 && v.Floor as real == v
  }

  /** The whole number a value is written as. */
  function NatOf(v: real): (n: nat)
    ensures IsNatReal(v) ==> n as real == v
  {
    if v < 0.0 then 0 else v.Floor
  }

  lemma {:induction false} WordLenOf(w: string, y: string)
    requires forall i :: 0 <= i < |w| ==> IsWordChar(w[i])
    requires y == [] || !IsWordChar(y[0])
    ensures WordLen(w + y) == |w|
    decreases |w|
  {
    if w == [] {
      assert w + y == y;
    } else {
      assert (w + y)[1..] == w[1..] + y;
      WordLenOf(w[1..], y);
    }
  }

  lemma {:induction false} SpaceLenOf(w: string, y: string)
    requires forall i :: 0 <= i < |w| ==> IsSpace(w[i])
    requires y == [] || !IsSpace(y[0])
    ensures SpaceLen(w + y) == |w|
    decreases |w|
  {
    if w == [] {
      assert w + y == y;
    } else {
      assert (w + y)[1..] == w[1..] + y;
      SpaceLenOf(w[1..], y);
    }
  }

  lemma {:induction false} DigitLenOf(w: string, y: string)
    requires forall i :: 0 <= i < |w| ==> IsDigit(w[i])
    requires y == [] || !IsDigit(y[0])
    ensures DigitLen(w + y) == |w|
    decreases |w|
  {
    if w == [] {
      assert w + y == y;
    } else {
      assert (w + y)[1..] == w[1..] + y;
      DigitLenOf(w[1..], y);
    }
  }

  /** The number pattern reads a written number back, whatever non-digit, non-point text follows. */
  lemma NumberAtNat(n: nat, y: string)
    requires y == [] || (!IsDigit(y[0]) && y[0] != '.')
    ensures NumberAt(NatStr(n) + y) == Some((n as real, |NatStr(n)|))
  {
    var ds := NatStr(n);
    var s := ds + y;
    DigitLenOf(ds, y);
    assert s[..|ds|] == ds;
    NatStrValue(n);
    if |ds| < |s| {
      assert s[|ds|] == y[0];
    }
  }

  /** The parts of `name=rest`, by position. */
  lemma EqSplit(name: string, rest: string)
    ensures |name + "=" + rest| == |name| + 1 + |rest|
    ensures (name + "=" + rest)[..|name|] == name && (name + "=" + rest)[|name|] == '='
    ensures (name + "=" + rest)[|name| + 1..] == rest
  {
    var line := name + "=" + rest;
    assert line == name + ("=" + rest);
    assert line[|name|..] == "=" + rest;
  }

  /** `name=` at the start of a line, with no whitespace after the `=`. */
  lemma NameEqOf(line: string, name: string)
    requires IsWord(name) && |name| < |line|
    requires line[..|name|] == name && line[|name|] == '='
    requires |line| == |name| + 1 || !IsSpace(line[|name| + 1])
    ensures NameEq(line) == Some((name, |name| + 1, |name| + 1))
  {
    assert line == name + line[|name|..];
    WordLenOf(name, line[|name|..]);
    assert SpaceLen(line[|name|..]) == 0;
  }

  /** The line written for a left node. */
  function LeftLine(name: string, n: nat): string {
    name + "=" + NatStr(n)
  }

  lemma LeftLineShape(name: string, n: nat)
    requires IsWord(name)
    ensures Trimmed(LeftLine(name, n)) && NoNewline(LeftLine(name, n))
    ensures |name| < |LeftLine(name, n)| && LeftLine(name, n)[|name|] == '='
  {
  }

  lemma MatchLeftLine(name: string, n: nat)
    requires IsWord(name)
    ensures MatchLeft(LeftLine(name, n)) == Some((name, n as real))
  {
    var ds := NatStr(n);
    var line := LeftLine(name, n);
    EqSplit(name, ds);
    NameEqOf(line, name);
    assert line[|name| + 1..] == ds + [];
    NumberAtNat(n, []);
  }

  /** The text written for one flow: `5 from A`. */
  function FlowText(f: Flow): string {
    NatStr(NatOf(f.value)) + " from " + f.source
  }

  /** Written text starts with a digit, ends with a word character and holds no newline. */
  predicate FlowShaped(t: string) {
    t != [] && IsDigit(t[0]) && IsWordChar(t[|t| - 1]) && NoNewline(t)
  }

  lemma FlowTextShape(f: Flow)
    requires IsWord(f.source) && IsNatReal(f.value)
    ensures FlowShaped(FlowText(f))
  {
  }

  /** `\s+from\s+` matches the written ` from ` exactly when no whitespace follows it. */
  lemma FromAtWritten(s: string, n: nat, rest: string)
    requires n <= |s| && s[n..] == " from " + rest
    requires rest == [] || !IsSpace(rest[0])
    ensures FromAt(s, n) == Some(n + 6)
  {
    assert s[n..] == " " + ("from " + rest);
    SpaceLenOf(" ", "from " + rest);
    assert s[n + 1..n + 5] == "from";
    assert s[n + 5..] == " " + rest;
    SpaceLenOf(" ", rest);
  }

  /** The flow pattern, given what each of its parts matches. */
  lemma FlowAtParts(s: string, v: real, n: nat, b: nat, w: nat)
    requires NumberAt(s) == Some((v, n)) && FromAt(s, n) == Some(b) && WordLen(s[b..]) == w && w > 0
    ensures FlowAt(s).Some? && FlowAt(s).value.0 == Flow(s[b..b + w], v) && FlowAt(s).value.1 == b + w
  {
  }

  /** The number and ` from ` of a written flow. */
  lemma NumberFromWritten(n: nat, rest: string)
    requires rest == [] || !IsSpace(rest[0])
    ensures NumberAt(NatStr(n) + " from " + rest) == Some((n as real, |NatStr(n)|))
    ensures FromAt(NatStr(n) + " from " + rest, |NatStr(n)|) == Some(|NatStr(n)| + 6)
  {
    var ds := NatStr(n);
    var s := ds + " from " + rest;
    assert s == ds + (" from " + rest);
    NumberAtNat(n, " from " + rest);
    assert s[|ds|..] == " from " + rest;
    FromAtWritten(s, |ds|, rest);
  }

  lemma FlowAtWritten(n: nat, src: string, y: string)
    requires IsWord(src)
    requires y == [] || !IsWordChar(y[0])
    ensures FlowAt(NatStr(n) + " from " + src + y).Some?
    ensures FlowAt(NatStr(n) + " from " + src + y).value.0 == Flow(src, n as real)
    ensures FlowAt(NatStr(n) + " from " + src + y).value.1 == |NatStr(n)| + 6 + |src|
  {
    var ds := NatStr(n);
    var k := |ds|;
    var s := ds + " from " + src + y;
    assert s == ds + " from " + (src + y);
    NumberFromWritten(n, src + y);
    assert s[k + 6..] == src + y;
    WordLenOf(src, y);
    assert s[k + 6..k + 6 + |src|] == src;
    FlowAtParts(s, n as real, k, k + 6, |src|);
  }

  /** The flow pattern reads a written flow back, whatever non-word text follows. */
  lemma FlowAtOf(f: Flow, y: string)
    requires IsWord(f.source) && IsNatReal(f.value)
    requires y == [] || !IsWordChar(y[0])
    ensures FlowAt(FlowText(f) + y).Some?
    ensures FlowAt(FlowText(f) + y).value.0 == f
    ensures FlowAt(FlowText(f) + y).value.1 == |FlowText(f)|
  {
    var n := NatOf(f.value);
    FlowAtWritten(n, f.source, y);
  }

  /** Flows a right node can have in written text. */
  predicate WritableFlows(fs: seq<Flow>) {
    fs != [] && forall i :: 0 <= i < |fs| ==> IsWord(fs[i].source) && IsNatReal(fs[i].value)
  }

  lemma WritableTail(fs: seq<Flow>)
    requires WritableFlows(fs) && |fs| > 1
    ensures WritableFlows(fs[1..])
  {
  }

  /** The flows of a right node, joined with `, `. */
  function FlowsText(fs: seq<Flow>): string
    requires fs != []
    decreases |fs|
  {
    if |fs| == 1 then FlowText(fs[0]) else FlowText(fs[0]) + ", " + FlowsText(fs[1..])
  }

  lemma {:induction false} FlowsTextShape(fs: seq<Flow>)
    requires WritableFlows(fs)
    ensures FlowShaped(FlowsText(fs))
    decreases |fs|
  {
    FlowTextShape(fs[0]);
    if |fs| > 1 {
      WritableTail(fs);
      FlowsTextShape(fs[1..]);
    }
  }

  /** The scan steps over a character that cannot start a number. */
  lemma FindFlowsSkip(c: char, rest: string)
    requires !IsDigit(c)
    ensures FindFlows([c] + rest) == FindFlows(rest)
  {
    assert ([c] + rest)[1..] == rest;
  }

  /** The scan finds a written flow and resumes after it. */
  lemma FindFlowsAfter(f: Flow, y: string)
    requires IsWord(f.source) && IsNatReal(f.value)
    requires y == [] || !IsWordChar(y[0])
    ensures FindFlows(FlowText(f) + y) == [f] + FindFlows(y)
  {
    var t := FlowText(f);
    FlowAtOf(f, y);
    assert (t + y)[|t|..] == y;
  }

  /** The scan finds the first written flow, steps over `, ` and goes on with the rest. */
  lemma FindFlowsCons(fs: seq<Flow>)
    requires WritableFlows(fs) && |fs| > 1
    ensures FindFlows(FlowsText(fs)) == [fs[0]] + FindFlows(FlowsText(fs[1..]))
  {
    var rest := FlowsText(fs[1..]);
    assert FlowsText(fs) == FlowText(fs[0]) + ([','] + ([' '] + rest));
    FindFlowsAfter(fs[0], [','] + ([' '] + rest));
    FindFlowsSkip(',', [' '] + rest);
    FindFlowsSkip(' ', rest);
  }

  lemma FindFlowsOne(fs: seq<Flow>)
    requires WritableFlows(fs) && |fs| == 1
    ensures FindFlows(FlowsText(fs)) == fs
  {
    FindFlowsAfter(fs[0], []);
    assert FlowText(fs[0]) + [] == FlowText(fs[0]);
  }

  /** Scanning the written flows finds exactly them, in order. */
  lemma {:induction false} FindFlowsText(fs: seq<Flow>)
    requires WritableFlows(fs)
    ensures FindFlows(FlowsText(fs)) == fs
    decreases |fs|, 1
  {
    if |fs| == 1 {
      FindFlowsOne(fs);
    } else {
      FindFlowsMore(fs);
    }
  }

  lemma {:induction false} FindFlowsMore(fs: seq<Flow>)
    requires WritableFlows(fs) && |fs| > 1
    ensures FindFlows(FlowsText(fs)) == fs
    decreases |fs|, 0
  {
    var tail := fs[1..];
    WritableTail(fs);
    FindFlowsText(tail);
    FindFlowsCons(fs);
    assert fs == [fs[0]] + tail;
  }

  /** The line written for a right node. */
  function RightLine(name: string, fs: seq<Flow>): string
    requires fs != []
  {
    name + "=" + FlowsText(fs)
  }

  lemma RightLineShape(name: string, fs: seq<Flow>)
    requires IsWord(name) && WritableFlows(fs)
    ensures Trimmed(RightLine(name, fs)) && NoNewline(RightLine(name, fs))
    ensures |name| < |RightLine(name, fs)| && RightLine(name, fs)[|name|] == '='
  {
    FlowsTextShape(fs);
  }

  lemma MatchRightLine(name: string, fs: seq<Flow>)
    requires IsWord(name) && WritableFlows(fs)
    ensures MatchRight(RightLine(name, fs)) == Some((name, FlowsText(fs)))
  {
    var t := FlowsText(fs);
    FlowsTextShape(fs);
    var line := RightLine(name, fs);
    EqSplit(name, t);
    NameEqOf(line, name);
    assert NewlineIndex(t) == |t|;
    assert t[..|t|] == t;
  }

  lemma NotHeaderWord(l: string, i: nat)
    requires i < |l| && l[i] == '='
    ensures l != "left" && l != "right"
  {
  }

  /** A line holding `=` is no section header. */
  lemma NotHeader(line: string, i: nat)
    requires i < |line| && line[i] == '='
    ensures Lower(line) != "left" && Lower(line) != "right"
  {
    NotHeaderWord(Lower(line), i);
  }

  /** The lines joined with newlines. */
  function JoinLines(ls: seq<string>): (s: string)
    requires ls != []
    ensures |ls| == 1 ==> s == ls[0]
    decreases |ls|
  {
    if |ls| == 1 then ls[0] else ls[0] + "\n" + JoinLines(ls[1..])
  }

  /** Splitting at newlines undoes joining lines that hold none. */
  lemma {:induction false} SplitJoin(ls: seq<string>)
    requires ls != [] && forall i :: 0 <= i < |ls| ==> NoNewline(ls[i])
    ensures SplitLines(JoinLines(ls)) == ls
    decreases |ls|
  {
    var s := JoinLines(ls);
    if |ls| == 1 {
      assert NewlineIndex(s) == |s|;
    } else {
      var rest := JoinLines(ls[1..]);
      var k := |ls[0]|;
      assert s == ls[0] + ("\n" + rest);
      assert s[k] == '\n';
      assert forall j :: 0 <= j < k ==> s[j] == ls[0][j];
      assert NewlineIndex(s) == k;
      assert s[..k] == ls[0];
      assert s[k + 1..] == rest;
      SplitJoin(ls[1..]);
      assert ls == [ls[0]] + ls[1..];
    }
  }

  /** Joined trimmed lines are trimmed. */
  lemma {:induction false} JoinLinesTrimmed(ls: seq<string>)
    requires ls != [] && forall i :: 0 <= i < |ls| ==> Trimmed(ls[i])
    ensures Trimmed(JoinLines(ls))
    decreases |ls|
  {
    if |ls| > 1 {
      var rest := JoinLines(ls[1..]);
      JoinLinesTrimmed(ls[1..]);
      var s := ls[0] + "\n" + rest;
      assert s[0] == ls[0][0];
      assert s[|s| - 1] == rest[|rest| - 1];
    }
  }

  ghost predicate WritableLeft(left: LeftNodes) {
    left.Valid() && forall k :: k in left.entries ==> IsWord(k) && IsNatReal(left.entries[k])
  }

  ghost predicate WritableRight(right: RightNodes) {
    && right.Valid()
    && (forall k :: k in right.entries ==> right.entries[k] != [])
    && (forall k :: k in right.entries ==> IsWord(k) && WritableFlows(right.entries[k]))
  }

  /** Dicts the text format can write: word names (the name pattern is `\w+`), whole non-negative values, and no
      right node without flows (the parser drops those). */
  ghost predicate Writable(left: LeftNodes, right: RightNodes) {
    WritableLeft(left) && WritableRight(right)
  }

  /** The left-section lines for the keys from position `j` on. */
  function LeftLines(left: LeftNodes, j: nat): (ls: seq<string>)
    requires left.Valid() && j <= |left.keys|
    ensures |ls| == |left.keys| - j
    decreases |left.keys| - j
  {
    if j == |left.keys| then []
    else
      KeyIn(left, j);
      var k := left.keys[j];
      [LeftLine(k, NatOf(left.entries[k]))] + LeftLines(left, j + 1)
  }

  /** The right-section lines for the keys from position `j` on. */
  function RightLines(right: RightNodes, j: nat): (ls: seq<string>)
    requires right.Valid() && j <= |right.keys|
    requires forall k :: k in right.entries ==> right.entries[k] != []
    ensures |ls| == |right.keys| - j
    decreases |right.keys| - j
  {
    if j == |right.keys| then []
    else
      KeyIn(right, j);
      var k := right.keys[j];
      [RightLine(k, right.entries[k])] + RightLines(right, j + 1)
  }

  /** Every written line is trimmed and holds no newline. */
  predicate LinesShaped(ls: seq<string>) {
    forall i :: 0 <= i < |ls| ==> Trimmed(ls[i]) && NoNewline(ls[i])
  }

  lemma {:induction false} LeftLinesShape(left: LeftNodes, j: nat)
    requires WritableLeft(left) && j <= |left.keys|
    ensures LinesShaped(LeftLines(left, j))
    decreases |left.keys| - j
  {
    if j < |left.keys| {
      var k := left.keys[j];
      LeftLineShape(k, NatOf(left.entries[k]));
      LeftLinesShape(left, j + 1);
    }
  }

  lemma {:induction false} RightLinesShape(right: RightNodes, j: nat)
    requires WritableRight(right) && j <= |right.keys|
    ensures LinesShaped(RightLines(right, j))
    decreases |right.keys| - j
  {
    if j < |right.keys| {
      var k := right.keys[j];
      RightLineShape(k, right.entries[k]);
      RightLinesShape(right, j + 1);
    }
  }

  /** The lines of the written text. */
  function Lines(left: LeftNodes, right: RightNodes): seq<string>
    requires Writable(left, right)
  {
    ["Left"] + LeftLines(left, 0) + ["Right"] + RightLines(right, 0)
  }

  /** The text of a two-column diagram: a `Left` section and a `Right` section, one line per node. */
  function Render(left: LeftNodes, right: RightNodes): string
    requires Writable(left, right)
  {
    JoinLines(Lines(left, right))
  }

  /** `Run` over a concatenation is `Run` over the parts in turn. */
  lemma {:induction false} RunConcat(st: State, a: seq<string>, b: seq<string>)
    requires Good(st)
    ensures Run(st, a + b) == Run(Run(st, a), b)
    decreases |a|
  {
    if a != [] {
      assert (a + b)[0] == a[0];
      assert (a + b)[1..] == a[1..] + b;
      RunConcat(Step(st, a[0]), a[1..], b);
    } else {
      assert a + b == b;
    }
  }

  lemma LeftStep(st: State, name: string, n: nat)
    requires Good(st) && st.section == LeftSection && IsWord(name)
    ensures Step(st, LeftLine(name, n)) == st.(left := Put(st.left, name, n as real))
  {
    var line := LeftLine(name, n);
    LeftLineShape(name, n);
    StripTrimmed(line);
    NotHeader(line, |name|);
    MatchLeftLine(name, n);
  }

  lemma RightStep(st: State, name: string, fs: seq<Flow>)
    requires Good(st) && st.section == RightSection && IsWord(name) && WritableFlows(fs)
    ensures Step(st, RightLine(name, fs)) == st.(right := Put(st.right, name, fs))
  {
    var line := RightLine(name, fs);
    RightLineShape(name, fs);
    StripTrimmed(line);
    NotHeader(line, |name|);
    MatchRightLine(name, fs);
    FindFlowsText(fs);
  }

  /** One left line puts the next key. */
  lemma LeftLinesStep(left: LeftNodes, right: RightNodes, j: nat)
    requires WritableLeft(left) && j < |left.keys|
    requires Good(State(LeftSection, Prefix(left, j), right))
    ensures Good(State(LeftSection, Prefix(left, j + 1), right))
    ensures Run(State(LeftSection, Prefix(left, j), right), LeftLines(left, j))
         == Run(State(LeftSection, Prefix(left, j + 1), right), LeftLines(left, j + 1))
  {
    var k := left.keys[j];
    KeyIn(left, j);
    var n := NatOf(left.entries[k]);
    var st := State(LeftSection, Prefix(left, j), right);
    LeftStep(st, k, n);
    assert LeftLines(left, j) == [LeftLine(k, n)] + LeftLines(left, j + 1);
  }

  /** The left lines from position `j` on complete the left dict. */
  lemma {:induction false} RunLeftLines(left: LeftNodes, right: RightNodes, j: nat)
    requires WritableLeft(left) && j <= |left.keys|
    requires Good(State(LeftSection, Prefix(left, j), right))
    ensures Run(State(LeftSection, Prefix(left, j), right), LeftLines(left, j)) == State(LeftSection, left, right)
    decreases |left.keys| - j
  {
    if j == |left.keys| {
      PrefixAll(left);
    } else {
      LeftLinesStep(left, right, j);
      RunLeftLines(left, right, j + 1);
    }
  }

  /** One right line puts the next key. */
  lemma RightLinesStep(left: LeftNodes, right: RightNodes, j: nat)
    requires WritableRight(right) && j < |right.keys|
    requires Good(State(RightSection, left, Prefix(right, j)))
    ensures Good(State(RightSection, left, Prefix(right, j + 1)))
    ensures Run(State(RightSection, left, Prefix(right, j)), RightLines(right, j))
         == Run(State(RightSection, left, Prefix(right, j + 1)), RightLines(right, j + 1))
  {
    var k := right.keys[j];
    KeyIn(right, j);
    var fs := right.entries[k];
    var st := State(RightSection, left, Prefix(right, j));
    RightStep(st, k, fs);
    assert RightLines(right, j) == [RightLine(k, fs)] + RightLines(right, j + 1);
  }

  /** The right lines from position `j` on complete the right dict. */
  lemma {:induction false} RunRightLines(left: LeftNodes, right: RightNodes, j: nat)
    requires WritableRight(right) && j <= |right.keys|
    requires Good(State(RightSection, left, Prefix(right, j)))
    ensures Run(State(RightSection, left, Prefix(right, j)), RightLines(right, j)) == State(RightSection, left, right)
    decreases |right.keys| - j
  {
    if j == |right.keys| {
      PrefixAll(right);
    } else {
      RightLinesStep(left, right, j);
      RunRightLines(left, right, j + 1);
    }
  }

  /** Stripping and splitting the written text gives back its lines. */
  lemma RenderLines(left: LeftNodes, right: RightNodes)
    requires Writable(left, right)
    ensures SplitLines(Strip(Render(left, right))) == Lines(left, right)
  {
    var ll := LeftLines(left, 0);
    var rl := RightLines(right, 0);
    var lines := Lines(left, right);
    LeftLinesShape(left, 0);
    RightLinesShape(right, 0);
    assert Trimmed("Left") && Trimmed("Right");
    forall i | 0 <= i < |lines| ensures Trimmed(lines[i]) && NoNewline(lines[i]) {
      if i == 0 {
      } else if i <= |ll| {
        assert lines[i] == ll[i - 1];
      } else if i == |ll| + 1 {
      } else {
        assert lines[i] == rl[i - |ll| - 2];
      }
    }
    JoinLinesTrimmed(lines);
    StripTrimmed(Render(left, right));
    SplitJoin(lines);
  }

  /** The header lines open their sections. */
  lemma Headers(st: State)
    requires Good(st)
    ensures Step(st, "Left") == st.(section := LeftSection)
    ensures Step(st, "Right") == st.(section := RightSection)
  {
    var l := Lower("Left");
    assert l[0] == 'l' && l[1] == 'e' && l[2] == 'f' && l[3] == 't';
    assert l == "left";
    var r := Lower("Right");
    assert r[0] == 'r' && r[1] == 'i' && r[2] == 'g' && r[3] == 'h' && r[4] == 't';
    assert r == "right";
    StripTrimmed("Left");
    StripTrimmed("Right");
  }

  lemma Regroup<T>(a: T, b: seq<T>, c: T, d: seq<T>)
    ensures [a] + b + [c] + d == [a] + (b + ([c] + d))
  {
  }

  lemma RunCons(st: State, line: string, rest: seq<string>)
    requires Good(st)
    ensures Run(st, [line] + rest) == Run(Step(st, line), rest)
  {
    assert ([line] + rest)[1..] == rest;
  }

  /** Running the written lines rebuilds both dicts. */
  lemma RunLines(left: LeftNodes, right: RightNodes)
    requires Writable(left, right)
    ensures Run(Initial(), Lines(left, right)) == State(RightSection, left, right)
  {
    var ll := LeftLines(left, 0);
    var rl := RightLines(right, 0);
    assert Prefix(left, 0) == EmptyDict() && Prefix(right, 0) == EmptyDict();
    var e0 := State(LeftSection, EmptyDict(), EmptyDict());
    Headers(Initial());
    Regroup("Left", ll, "Right", rl);
    RunCons(Initial(), "Left", ll + (["Right"] + rl));
    RunConcat(e0, ll, ["Right"] + rl);
    RunLeftLines(left, EmptyDict(), 0);
    var e1 := State(LeftSection, left, EmptyDict());
    Headers(e1);
    RunCons(e1, "Right", rl);
    RunRightLines(left, right, 0);
  }

  /** Parsing the written text gives back both dicts, keys in the same order. */
  lemma ParseRender(left: LeftNodes, right: RightNodes)
    requires Writable(left, right)
    ensures Parse(Render(left, right)) == (left, right)
  {
    RenderLines(left, right);
    RunLines(left, right);
  }
}
