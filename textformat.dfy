/** The line-oriented text format of the two-column diagram:

      Left
      A=10
      Right
      M= 5 from A, 5 from B

    Its three regular expressions are written out as matchers over ASCII text. */
module TextFormat {
  import opened Wrappers
  import opened Strings
  import opened TwoColumn

  /** `\w` on ASCII: letters, digits and the underscore. */
  predicate IsWordChar(c: char) {
    'a' <= c <= 'z' || 'A' <= c <= 'Z' || IsDigit(c) || c == '_'
  }

  predicate IsWord(s: string) {
    s != [] && forall i :: 0 <= i < |s| ==> IsWordChar(s[i])
  }

  /** The length of the longest run of word characters at the start of `s` (greedy `\w*`). */
  function WordLen(s: string): (n: nat)
    ensures n <= |s| && (forall i :: 0 <= i < n ==> IsWordChar(s[i])) && (n == |s| || !IsWordChar(s[n]))
  {
    if s != [] && IsWordChar(s[0]) then 1 + WordLen(s[1..]) else 0
  }

  /** The length of the longest run of whitespace at the start of `s` (greedy `\s*`). */
  function SpaceLen(s: string): (n: nat)
    ensures n <= |s| && (forall i :: 0 <= i < n ==> IsSpace(s[i])) && (n == |s| || !IsSpace(s[n]))
  {
    if s != [] && IsSpace(s[0]) then 1 + SpaceLen(s[1..]) else 0
  }

  /** The length of the longest run of digits at the start of `s` (greedy `\d*`). */
  function DigitLen(s: string): (n: nat)
    ensures n <= |s| && (forall i :: 0 <= i < n ==> IsDigit(s[i])) && (n == |s| || !IsDigit(s[n]))
  {
    if s != [] && IsDigit(s[0]) then 1 + DigitLen(s[1..]) else 0
  }

  /** The value of the digits after a decimal point: `0.d1d2...`. */
  function Fraction(s: string): (r: real)
    requires forall i :: 0 <= i < |s| ==> IsDigit(s[i])
    ensures 0.0 <= r < 1.0
  {
    if s == [] then 0.0 else (DigitOf(s[0]) as real + Fraction(s[1..])) / 10.0
  }

  /** `\d+(\.\d+)?` at the start of `s`, and `float()` of what it matched: the value and the length matched.
      The fraction is taken only when a digit follows the point. */
  function NumberAt(s: string): (r: Option<(real, nat)>)
    ensures r.Some? ==> 0 < r.value.1 <= |s| && r.value.0 >= 0.0
    ensures r.Some? <==> s != [] && IsDigit(s[0])
  {
    var d := DigitLen(s);
    if d == 0 then None
    else
      var whole := DigitsValue(s[..d]) as real;
      if d + 1 < |s| && s[d] == '.' && IsDigit(s[d + 1]) then
        var e := DigitLen(s[d + 1..]);
        Some((whole + Fraction(s[d + 1..d + 1 + e]), d + 1 + e))
      else
        Some((whole, d))
  }

  /** The name and the position after `\w+\s*=\s*` at the start of a line, if it is there. The regular expression
      can only match with the longest word, since a shorter one is followed by a word character. */
  function NameEq(line: string): (r: Option<(string, nat, nat)>)
    ensures r.Some? ==> IsWord(r.value.0) && |r.value.0| < r.value.1 <= r.value.2 <= |line|
    ensures r.Some? ==> line[..|r.value.0|] == r.value.0 && line[r.value.1 - 1] == '='
  {
    var w := WordLen(line);
    if w == 0 then None
    else
      var a := w + SpaceLen(line[w..]);
      if a == |line| || line[a] != '=' then None
      else Some((line[..w], a + 1, a + 1 + SpaceLen(line[a + 1..])))
  }

  /** The left-section pattern at the start of a line: a word, `=` with optional whitespace around it, and a
      number with an optional fraction; the name and the number's value. */
  function MatchLeft(line: string): (r: Option<(string, real)>)
    ensures r.Some? ==> IsWord(r.value.0) && |r.value.0| <= |line| && line[..|r.value.0|] == r.value.0 && r.value.1 >= 0.0
  {
    match NameEq(line)
    case None => None
    case Some((name, _, b)) =>
      match NumberAt(line[b..])
      case None => None
      case Some((v, _)) => Some((name, v))
  }

  /** The index of the first newline, or the length. */
  function NewlineIndex(s: string): (i: nat)
    ensures i <= |s| && (forall k :: 0 <= k < i ==> s[k] != '\n') && (i == |s| || s[i] == '\n')
  {
    if s == [] || s[0] == '\n' then 0 else 1 + NewlineIndex(s[1..])
  }

  /** The last character of `s` that is not a newline. */
  function LastNotNewline(s: string): (r: Option<char>)
    ensures r.Some? ==> r.value in s && r.value != '\n'
  {
    if s == [] then None
    else if s[|s| - 1] != '\n' then Some(s[|s| - 1])
    else LastNotNewline(s[..|s| - 1])
  }

  /** The right-section pattern at the start of a line: a word, `=` with optional whitespace around it, and the
      non-empty rest; the name and the flow text. The rest runs to the end of the line (up to a newline); when the
      greedy whitespace after `=` leaves nothing, the match gives one whitespace character back to the rest. */
  function MatchRight(line: string): (r: Option<(string, string)>)
    ensures r.Some? ==> IsWord(r.value.0) && |r.value.0| <= |line| && line[..|r.value.0|] == r.value.0 && r.value.1 != []
  {
    match NameEq(line)
    case None => None
    case Some((name, a, b)) =>
      if b < |line| then Some((name, line[b..][..NewlineIndex(line[b..])]))
      else
        match LastNotNewline(line[a..b])
        case None => None
        case Some(c) => Some((name, [c]))
  }

  /** `\s+from\s+` at position `n` of `s`: the position after it. */
  function FromAt(s: string, n: nat): (r: Option<nat>)
    requires n <= |s|
    ensures r.Some? ==> n + 6 <= r.value <= |s| && IsSpace(s[n]) && IsSpace(s[r.value - 1])
  {
    var sp := SpaceLen(s[n..]);
    var a := n + sp;
    if sp == 0 || a + 4 > |s| || s[a..a + 4] != "from" then None
    else
      var sp2 := SpaceLen(s[a + 4..]);
      if sp2 == 0 then None else Some(a + 4 + sp2)
  }

  /** The flow pattern at the start of `s`, a number, `from` between whitespace, and a word: the flow and the
      length matched. Backtracking never
      helps this pattern: each greedy run is followed by a character its shorter forms cannot accept. */
  function FlowAt(s: string): (r: Option<(Flow, nat)>)
    ensures r.Some? ==> 0 < r.value.1 <= |s| && r.value.0.value >= 0.0 && IsWord(r.value.0.source)
  {
    match NumberAt(s)
    case None => None
    case Some((v, n)) =>
      match FromAt(s, n)
      case None => None
      case Some(b) =>
        var w := WordLen(s[b..]);
        if w == 0 then None else Some((Flow(s[b..b + w], v), b + w))
  }

  /** `re.finditer` of the flow pattern: scan left to right, resuming after each match. */
  function FindFlows(s: string): (r: seq<Flow>)
    ensures forall i :: 0 <= i < |r| ==> r[i].value >= 0.0 && IsWord(r[i].source)
    decreases |s|
  {
    if s == [] then []
    else
      match FlowAt(s)
      case Some((f, n)) => [f] + FindFlows(s[n..])
      case None => FindFlows(s[1..])
  }

  /** The lines of a text: the pieces between newlines, an empty piece where two newlines meet or at either end. */
  function SplitLines(s: string): (r: seq<string>)
    ensures r != []
    decreases |s|
  {
    var i := NewlineIndex(s);
    if i == |s| then [s] else [s[..i]] + SplitLines(s[i + 1..])
  }

  datatype Section = NoSection | LeftSection | RightSection

  /** The parser's state between lines: the current section and the two dicts. */
  datatype State = State(section: Section, left: LeftNodes, right: RightNodes)

  /** The state the parser keeps: valid dicts, no right node without flows, no negative value. */
  ghost predicate Good(st: State) {
    st.left.Valid() && st.right.Valid()
    && (forall k :: k in st.left.entries ==> st.left.entries[k] >= 0.0)
    && (forall k :: k in st.right.entries ==> st.right.entries[k] != [])
    && (forall k, i :: k in st.right.entries && 0 <= i < |st.right.entries[k]| ==> st.right.entries[k][i].value >= 0.0)
  }

  function Initial(): (st: State)
    ensures Good(st)
  {
    State(NoSection, EmptyDict(), EmptyDict())
  }

  /** A section header: `left` or `right` in any letter case. */
  predicate Header(line: string) {
    Lower(line) == "left" || Lower(line) == "right"
  }

  /** One line of `parse_text_format`. */
  function Step(st: State, rawLine: string): (r: State)
    requires Good(st)
    ensures Good(r)
    ensures Strip(rawLine) == [] ==> r == st
    ensures r.section != st.section ==> Header(Strip(rawLine))
    ensures r.left != st.left ==>
      st.section == LeftSection && MatchLeft(Strip(rawLine)).Some?
      && r.left == Put(st.left, MatchLeft(Strip(rawLine)).value.0, MatchLeft(Strip(rawLine)).value.1)
    ensures r.right != st.right ==>
      st.section == RightSection && MatchRight(Strip(rawLine)).Some?
      && FindFlows(MatchRight(Strip(rawLine)).value.1) != []
    ensures Lower(Strip(rawLine)) == "left" ==> r == st.(section := LeftSection)
    ensures Lower(Strip(rawLine)) == "right" ==> r == st.(section := RightSection)
    ensures !Header(Strip(rawLine)) && st.section == LeftSection && MatchLeft(Strip(rawLine)).Some? ==>
      r == st.(left := Put(st.left, MatchLeft(Strip(rawLine)).value.0, MatchLeft(Strip(rawLine)).value.1))
    ensures (!Header(Strip(rawLine)) && st.section == RightSection && MatchRight(Strip(rawLine)).Some?
             && FindFlows(MatchRight(Strip(rawLine)).value.1) != []) ==>
      r == st.(right := Put(st.right, MatchRight(Strip(rawLine)).value.0, FindFlows(MatchRight(Strip(rawLine)).value.1)))
  {
    var line := Strip(rawLine);
    if line == [] then st
    else if Lower(line) == "left" then st.(section := LeftSection)
    else if Lower(line) == "right" then st.(section := RightSection)
    else if st.section == LeftSection then
      match MatchLeft(line)
      case Some((name, value)) => st.(left := Put(st.left, name, value))
      case None => st
    else if st.section == RightSection then
      match MatchRight(line)
      case Some((name, flowsText)) =>
        var flows := FindFlows(flowsText);
        if flows != [] then st.(right := Put(st.right, name, flows)) else st
      case None => st
    else st
  }

  /** The lines run one after the other. */
  function Run(st: State, lines: seq<string>): (r: State)
    requires Good(st)
    ensures Good(r)
    decreases |lines|
  {
    if lines == [] then st else Run(Step(st, lines[0]), lines[1..])
  }

  /** parse_text_format: the lines of the stripped text run in order from the empty state. */
  function Parse(text: string): (r: (LeftNodes, RightNodes))
  {
    var st := Run(Initial(), SplitLines(Strip(text)));
    (st.left, st.right)
  }

  /** `parse_text_format` as the source runs it: a loop over the lines that updates the current section and the
      two dicts. */
  method ParseTextFormat(text: string) returns (left: LeftNodes, right: RightNodes)
    ensures (left, right) == Parse(text)
    ensures left.Valid() && right.Valid()
    ensures forall k :: k in right.entries ==> right.entries[k] != []
  {
    left := EmptyDict();
    right := EmptyDict();
    var lines := SplitLines(Strip(text));
    var section := NoSection;
    for i := 0 to |lines|
      invariant Good(State(section, left, right))
      invariant Run(State(section, left, right), lines[i..]) == Run(Initial(), lines)
    {
      assert lines[i..][1..] == lines[i + 1..];
      section, left, right := ReadLine(section, left, right, lines[i]);
    }
  }

  /** The body of the line loop of `parse_text_format`: one line updates the section or one of the dicts. */
  method ReadLine(section0: Section, left0: LeftNodes, right0: RightNodes, rawLine: string)
    returns (section: Section, left: LeftNodes, right: RightNodes)
    requires Good(State(section0, left0, right0))
    ensures State(section, left, right) == Step(State(section0, left0, right0), rawLine)
  {
    section, left, right := section0, left0, right0;
    var line := Strip(rawLine);
    if line == [] {
    } else if Lower(line) == "left" {
      section := LeftSection;
    } else if Lower(line) == "right" {
      section := RightSection;
    } else if section == LeftSection {
      var m := MatchLeft(line);
      if m.Some? {
        left := Put(left, m.value.0, m.value.1);
      }
    } else if section == RightSection {
      var m := MatchRight(line);
      if m.Some? {
        var flows := FindFlows(m.value.1);
        if flows != [] {
          right := Put(right, m.value.0, flows);
        }
      }
    }
  }
}
