/**
 Test inputs as text (mutator.py): what `save` writes, `read_siminput` reads back.

 A file is its lines, line ends included. An instruction stands in column 8; the label of its
 word, if it is the word's first, in front of it.
 */
module TestFile {
  import opened Options

  datatype Part = Prefix | Main | Suffix

  function Tag(part: Part): (s: string)
    ensures |s| == 2 && ':' !in s
  {
    match part
    case Prefix => "_p"
    case Main => "_l"
    case Suffix => "_s"
  }

  /** A word: its label number, and for each instruction the text from column 8 on. */
  datatype Word = Word(number: nat, texts: seq<string>)

  datatype Input = Input(template: nat, prefix: seq<Word>, words: seq<Word>, suffix: seq<Word>, ints: seq<nat>, data: seq<nat>)

  const TEMPLATES: seq<string> := ["p-m", "p-s", "p-u", "v-u"]

  // ---------- Numbers ----------

  const DIGITS: string := "0123456789abcdef"

  /** The digits of `n` to the base `b`, at least `width` of them. */
  function Print(n: nat, b: nat, width: nat): (s: string)
    requires 2 <= b <= 16
    ensures |s| >= width
    ensures forall i :: 0 <= i < |s| ==> s[i] in DIGITS[..b]
    decreases n, width
  {
    if n == 0 && width == 0 then ""
    else if n == 0 then Print(0, b, width - 1) + [DIGITS[0]]
    else
      Shrinks(n, b);
      var w := if width > 0 then width - 1 else 0;
      Print(n / b, b, w) + [DIGITS[n % b]]
  }

  lemma Shrinks(n: nat, b: nat)
    requires n > 0 && b >= 2
    ensures 0 <= n / b < n
  {
    assert n == b * (n / b) + n % b;
  }

  function DigitOf(c: char): (d: Option<nat>)
    ensures d.Some? ==> d.value < 16 && DIGITS[d.value] == c
  {
    DigitFrom(c, 0)
  }

  function DigitFrom(c: char, i: nat): (d: Option<nat>)
    requires i <= 16
    ensures d.Some? ==> i <= d.value < 16 && DIGITS[d.value] == c
    ensures d.None? ==> forall k :: i <= k < 16 ==> DIGITS[k] != c
    decreases 16 - i
  {
    if i == 16 then None else if DIGITS[i] == c then Some(i) else DigitFrom(c, i + 1)
  }

  lemma DigitBack(d: nat)
    requires d < 16
    ensures DigitOf(DIGITS[d]) == Some(d)
  {
    assert forall i, j :: 0 <= i < j < 16 ==> DIGITS[i] != DIGITS[j];
  }

  /** `int(s, b)`, for a string of digits. */
  function Parse(s: string, b: nat): Option<nat> {
    if s == "" then None
    else if |s| == 1 then Small(DigitOf(s[0]), b)
    else
      var front, d := Parse(s[..|s| - 1], b), Small(DigitOf(s[|s| - 1]), b);
      if front.None? || d.None? then None else Some(front.value * b + d.value)
  }

  function Small(d: Option<nat>, b: nat): Option<nat> {
    if d.Some? && d.value < b then d else None
  }

  /** A printed number is its leading digits and its last one. */
  lemma PrintSplit(n: nat, b: nat, width: nat) returns (q: nat, d: nat, w: nat)
    requires 2 <= b <= 16 && (n > 0 || width > 0)
    ensures d < b && n == q * b + d && (q < n || (n == 0 == q && w < width))
    ensures Print(n, b, width) == Print(q, b, w) + [DIGITS[d]]
    ensures q == 0 ==> d == n
  {
    q, d, w := n / b, n % b, if width > 0 then width - 1 else 0;
    assert n == b * q + d;
    if n > 0 {
      Shrinks(n, b);
    }
  }

  lemma ParseAppend(front: string, d: nat, b: nat)
    requires d < b <= 16
    ensures front == "" ==> Parse(front + [DIGITS[d]], b) == Some(d)
    ensures front != "" && Parse(front, b).Some? ==> Parse(front + [DIGITS[d]], b) == Some(Parse(front, b).value * b + d)
  {
    hide DigitOf;
    DigitBack(d);
    assert (front + [DIGITS[d]])[..|front|] == front;
  }

  lemma {:induction false} ParsePrint(n: nat, b: nat, width: nat)
    requires 2 <= b <= 16 && (n > 0 || width > 0)
    ensures Parse(Print(n, b, width), b) == Some(n)
    decreases n, width
  {
    hide Print, Parse;
    var q, d, w := PrintSplit(n, b, width);
    ParseAppend(Print(q, b, w), d, b);
    if q == 0 && w == 0 {
      PrintNone(b);
    } else {
      PrintSome(q, b, w);
      ParsePrint(q, b, w);
    }
  }

  lemma PrintNone(b: nat)
    requires 2 <= b <= 16
    ensures Print(0, b, 0) == ""
  {
  }

  lemma PrintSome(n: nat, b: nat, width: nat)
    requires 2 <= b <= 16 && (n > 0 || width > 0)
    ensures |Print(n, b, width)| > 0
  {
  }

  // ---------- Writing ----------

  function Spaces(n: nat): (s: string)
    ensures |s| == n && forall i :: 0 <= i < n ==> s[i] == ' '
  {
    seq(n, _ => ' ')
  }

  /** `'{:<n}'.format(s)`. */
  function Pad(s: string, n: nat): (r: string)
    ensures |r| == (if |s| < n then n else |s|) && s <= r
  {
    if |s| < n then s + Spaces(n - |s|) else s
  }

  function Label(part: Part, number: nat): string {
    Tag(part) + Print(number, 10, 1) + ":"
  }

  /** The instructions of a word as `get_insts` has them. */
  function WordLines(part: Part, w: Word): (r: seq<string>)
    ensures |r| == |w.texts|
  {
    seq(|w.texts|, i requires 0 <= i < |w.texts| => Pad(if i == 0 then Label(part, w.number) else "", 8) + w.texts[i])
  }

  function PartLines(part: Part, ws: seq<Word>): seq<string> {
    if ws == [] then [] else WordLines(part, ws[0]) + PartLines(part, ws[1..])
  }

  /** The instructions of the main part as `get_insts` has them: the label of the end comes last. */
  function MainLines(ws: seq<Word>): seq<string> {
    PartLines(Main, ws) + [Label(Main, |ws|)]
  }

  /** A line for each instruction, of the main part as long as there are interrupt values for them. */
  function Out(part: Part, insts: seq<string>, ints: seq<nat>): seq<string> {
    if insts == [] then []
    else if part != Main then [Pad(insts[0], 50) + "\n"] + Out(part, insts[1..], ints)
    else if ints == [] then []
    else [Pad(insts[0], 50) + Print(ints[0], 2, 4) + "\n"] + Out(part, insts[1..], ints[1..])
  }

  function DataLines(data: seq<nat>): (r: seq<string>)
    ensures |r| == |data|
  {
    seq(|data|, i requires 0 <= i < |data| => Print(data[i], 16, 16) + "\n")
  }

  /** The file that `save` writes. */
  function Save(x: Input): seq<string>
    requires x.template < 4
  {
    [TEMPLATES[x.template] + "\n", "\n"]
    + Out(Prefix, PartLines(Prefix, x.prefix), [])
    + Out(Main, MainLines(x.words), x.ints)
    + Out(Suffix, PartLines(Suffix, x.suffix), [])
    + (if x.data == [] then [] else ["data:\n"] + DataLines(x.data))
  }

  // ---------- Reading ----------

  datatype State = State(part: Option<Part>, prefix: seq<Word>, words: seq<Word>, suffix: seq<Word>, ints: seq<nat>)

  /** `s[i:j]`. */
  function Slice(s: string, i: nat, j: nat): string {
    var a, b := if i < |s| then i else |s|, if j < |s| then j else |s|;
    if a <= b then s[a..b] else ""
  }

  /** `s.split(c)[0]`. */
  function UpTo(s: string, c: char): string {
    if s == "" || s[0] == c then "" else [s[0]] + UpTo(s[1..], c)
  }

  predicate HasData(line: string) {
    |line| >= 5 && (line[..5] == "data:" || HasData(line[1..]))
  }

  function PartOf(line: string): Option<Part> {
    if Slice(line, 0, 2) == "_p" then Some(Prefix)
    else if Slice(line, 0, 2) == "_l" then Some(Main)
    else if Slice(line, 0, 2) == "_s" then Some(Suffix)
    else None
  }

  function WordsOf(st: State, part: Part): seq<Word> {
    match part
    case Prefix => st.prefix
    case Main => st.words
    case Suffix => st.suffix
  }

  function WithWords(st: State, part: Part, ws: seq<Word>): State {
    match part
    case Prefix => st.(part := Some(part), prefix := ws)
    case Main => st.(part := Some(part), words := ws)
    case Suffix => st.(part := Some(part), suffix := ws)
  }

  /** The interrupt value at the end of a line of the main part. */
  function Noted(st: State, part: Part, line: string): Option<State> {
    if part != Main then Some(st)
    else
      var v := Parse(Slice(line, if |line| < 5 then 0 else |line| - 5, if |line| < 1 then 0 else |line| - 1), 2);
      if v.None? then None else Some(st.(ints := st.ints + [v.value]))
  }

  /** One line: a new word, or one more instruction of the last one. */
  function Feed(st: State, line: string): Option<State> {
    var text := Slice(line, 8, 50);
    var part := PartOf(line);
    if part.Some? then
      var number := Parse(Slice(UpTo(Slice(line, 0, 8), ':'), 2, 8), 10);
      if number.None? then None
      else Noted(WithWords(st, part.value, WordsOf(st, part.value) + [Word(number.value, [text])]), part.value, line)
    else if st.part.None? || WordsOf(st, st.part.value) == [] then None
    else
      var ws := WordsOf(st, st.part.value);
      var l := |ws| - 1;
      Noted(WithWords(st, st.part.value, ws[l := ws[l].(texts := ws[l].texts + [text])]), st.part.value, line)
  }

  function ParseData(lines: seq<string>): Option<seq<nat>> {
    if lines == [] then Some([])
    else
      var v, rest := Parse(UpTo(lines[0], '\n'), 16), ParseData(lines[1..]);
      if v.None? || rest.None? then None else Some([v.value] + rest.value)
  }

  /** The loop of `read_siminput`. */
  function ReadFrom(st: State, lines: seq<string>): Option<(State, seq<nat>)>
    decreases |lines|
  {
    if lines == [] then Some((st, []))
    else if HasData(lines[0]) then
      var data := ParseData(lines[1..]);
      if data.None? then None else Some((st, data.value))
    else
      var next := Feed(st, lines[0]);
      if next.None? then None else ReadFrom(next.value, lines[1..])
  }

  function IndexOf(names: seq<string>, name: string, i: nat): Option<nat>
    decreases |names| - i
  {
    if i >= |names| then None else if names[i] == name then Some(i) else IndexOf(names, name, i + 1)
  }

  const START: State := State(None, [], [], [], [])

  /** `read_siminput`; a file that it stumbles over is `None`. */
  function Load(lines: seq<string>): Option<Input> {
    if |lines| < 2 || IndexOf(TEMPLATES, UpTo(lines[0], '\n'), 0).None? then None
    else
      var r := ReadFrom(START, lines[2..]);
      if r.None? then None
      else
        var (st, data) := r.value;
        Some(Input(IndexOf(TEMPLATES, UpTo(lines[0], '\n'), 0).value, st.prefix, st.words, st.suffix, st.ints, data))
  }

  /** The loop over the lines. */
  method ReadSimInput(lines: seq<string>) returns (r: Option<Input>)
    ensures r == Load(lines)
  {
    if |lines| < 2 {
      return None;
    }
    var template := IndexOf(TEMPLATES, UpTo(lines[0], '\n'), 0);
    if template.None? {
      return None;
    }
    var st, data: seq<nat> := START, [];
    var i := 2;
    while i < |lines|
      invariant 2 <= i <= |lines| && ReadFrom(START, lines[2..]) == ReadFrom(st, lines[i..])
    {
      assert lines[i..][1..] == lines[i + 1..];
      if HasData(lines[i]) {
        var d := ParseData(lines[i + 1..]);
        if d.None? {
          return None;
        }
        return Some(Input(template.value, st.prefix, st.words, st.suffix, st.ints, d.value));
      }
      var next := Feed(st, lines[i]);
      if next.None? {
        return None;
      }
      st := next.value;
      i := i + 1;
    }
    r := Some(Input(template.value, st.prefix, st.words, st.suffix, st.ints, []));
  }

  // ---------- The round trip ----------

  /** A word that fits its columns: instructions padded to 42 columns at least, a label of at most five digits. */
  predicate Writable(w: Word) {
    w.texts != [] && (forall i :: 0 <= i < |w.texts| ==> |w.texts[i]| >= 42) && |Print(w.number, 10, 1)| <= 5
  }

  predicate AllWritable(ws: seq<Word>) {
    forall i :: 0 <= i < |ws| ==> Writable(ws[i])
  }

  function CutTexts(texts: seq<string>): (r: seq<string>)
    requires forall i :: 0 <= i < |texts| ==> |texts[i]| >= 42
    ensures |r| == |texts| && forall i :: 0 <= i < |r| ==> r[i] == texts[i][..42]
  {
    seq(|texts|, i requires 0 <= i < |texts| => texts[i][..42])
  }

  /** The word with its instructions cut to the columns that are read. */
  function Cut(w: Word): Word
    requires Writable(w)
  {
    w.(texts := CutTexts(w.texts))
  }

  function CutAll(ws: seq<Word>): (r: seq<Word>)
    requires AllWritable(ws)
    ensures |r| == |ws|
  {
    seq(|ws|, i requires 0 <= i < |ws| => Cut(ws[i]))
  }

  predicate Clean(lines: seq<string>) {
    forall i :: 0 <= i < |lines| ==> !HasData(lines[i])
  }

  /** One interrupt value of four bits per instruction of the main part. */
  predicate Valued(part: Part, n: nat, ints: seq<nat>) {
    if part == Main then |ints| == n && forall i :: 0 <= i < n ==> ints[i] < 16 else ints == []
  }

  function FeedAll(st: State, lines: seq<string>): Option<State>
    decreases |lines|
  {
    if lines == [] then Some(st)
    else
      var next := Feed(st, lines[0]);
      if next.None? then None else FeedAll(next.value, lines[1..])
  }

  lemma {:induction false} ReadOn(st: State, lines: seq<string>, rest: seq<string>)
    requires Clean(lines) && FeedAll(st, lines).Some?
    ensures ReadFrom(st, lines + rest) == ReadFrom(FeedAll(st, lines).value, rest)
    decreases |lines|
  {
    hide Feed, HasData;
    if lines == [] {
      assert lines + rest == rest;
    } else {
      assert (lines + rest)[0] == lines[0] && (lines + rest)[1..] == lines[1..] + rest;
      assert forall i :: 0 <= i < |lines| - 1 ==> lines[1..][i] == lines[i + 1];
      ReadOn(Feed(st, lines[0]).value, lines[1..], rest);
    }
  }

  lemma {:induction false} FeedOn(st: State, x: seq<string>, y: seq<string>)
    requires FeedAll(st, x).Some?
    ensures FeedAll(st, x + y) == FeedAll(FeedAll(st, x).value, y)
    decreases |x|
  {
    hide Feed;
    if x == [] {
      assert x + y == y;
    } else {
      assert (x + y)[0] == x[0] && (x + y)[1..] == x[1..] + y;
      FeedOn(Feed(st, x[0]).value, x[1..], y);
    }
  }

  /** The line of an instruction that fills its columns. */
  function LineOf(part: Part, inst: string, v: nat): string {
    inst + (if part == Main then Print(v, 2, 4) else "") + "\n"
  }

  /** The columns of a line. */
  lemma Columns(head: string, text: string, rest: string)
    requires |head| == 8 && |text| >= 42
    ensures var line := head + text + rest;
      Slice(line, 8, 50) == text[..42] && Slice(line, 0, 2) == head[..2] && Slice(line, 0, 8) == head
  {
  }

  lemma {:induction false} UpToFirst(s: string, c: char, rest: string)
    requires c !in s
    ensures UpTo(s + [c] + rest, c) == s
    decreases |s|
  {
    if s == "" {
      assert s + [c] + rest == [c] + rest;
    } else {
      assert (s + [c] + rest)[1..] == s[1..] + [c] + rest;
      UpToFirst(s[1..], c, rest);
    }
  }

  lemma LabelHead(part: Part, number: nat)
    requires |Print(number, 10, 1)| <= 5
    ensures var head := Pad(Label(part, number), 8);
      && |head| == 8 && head[..2] == Tag(part)
      && Parse(Slice(UpTo(head, ':'), 2, 8), 10) == Some(number)
  {
    hide Print, Parse, UpTo;
    var digits := Print(number, 10, 1);
    var head := Pad(Label(part, number), 8);
    assert head == (Tag(part) + digits) + [':'] + Spaces(8 - |Label(part, number)|);
    assert ':' !in Tag(part) + digits;
    UpToFirst(Tag(part) + digits, ':', Spaces(8 - |Label(part, number)|));
    assert Slice(Tag(part) + digits, 2, 8) == digits;
    ParsePrint(number, 10, 1);
  }

  function Power(b: nat, w: nat): nat {
    if w == 0 then 1 else b * Power(b, w - 1)
  }

  /** Four binary digits. */
  lemma FourBits(v: nat)
    requires v < 16
    ensures |Print(v, 2, 4)| == 4
  {
    PrintFits(v, 3);
  }

  lemma {:induction false} PrintFits(v: nat, w: nat)
    requires v < 2 * Power(2, w)
    ensures |Print(v, 2, w + 1)| == w + 1
    decreases w
  {
    if w > 0 {
      PrintFits(v / 2, w - 1);
    } else {
      assert v / 2 == 0;
      PrintNone(2);
    }
  }

  /** The value at the end of a line of the main part is read. */
  lemma Notes(st: State, part: Part, inst: string, v: nat)
    requires part == Main ==> v < 16
    ensures Noted(st, part, LineOf(part, inst, v)) == Some(if part == Main then st.(ints := st.ints + [v]) else st)
  {
    hide Print, Parse;
    if part == Main {
      FourBits(v);
      ParsePrint(v, 2, 4);
      var line := LineOf(part, inst, v);
      assert line[|line| - 5..|line| - 1] == Print(v, 2, 4);
    }
  }

  lemma TagIsPart(part: Part, line: string)
    requires Slice(line, 0, 2) == Tag(part)
    ensures PartOf(line) == Some(part)
  {
    hide Slice;
    assert "_p"[1] == 'p' && "_l"[1] == 'l' && "_s"[1] == 's';
  }

  /** What a line of the part adds to what was read. */
  function Fed(st: State, part: Part, ws: seq<Word>, v: nat): State {
    var s := WithWords(st, part, ws);
    if part == Main then s.(ints := s.ints + [v]) else s
  }

  lemma FeedFirst(st: State, part: Part, number: nat, text: string, v: nat)
    requires |text| >= 42 && |Print(number, 10, 1)| <= 5 && (part == Main ==> v < 16)
    ensures Feed(st, LineOf(part, Pad(Label(part, number), 8) + text, v)) ==
              Some(Fed(st, part, WordsOf(st, part) + [Word(number, [text[..42]])], v))
  {
    hide Print, Parse, Label, UpTo, Pad, Noted, Slice;
    LabelHead(part, number);
    var head := Pad(Label(part, number), 8);
    var line := LineOf(part, head + text, v);
    assert line == head + text + ((if part == Main then Print(v, 2, 4) else "") + "\n");
    Columns(head, text, (if part == Main then Print(v, 2, 4) else "") + "\n");
    TagIsPart(part, line);
    Notes(WithWords(st, part, WordsOf(st, part) + [Word(number, [text[..42]])]), part, head + text, v);
  }

  lemma FeedMore(st: State, part: Part, ws: seq<Word>, w: Word, text: string, v: nat)
    requires |text| >= 42 && (part == Main ==> v < 16)
    requires st.part == Some(part) && WordsOf(st, part) == ws + [w]
    ensures Feed(st, LineOf(part, Pad("", 8) + text, v)) ==
              Some(Fed(st, part, ws + [w.(texts := w.texts + [text[..42]])], v))
  {
    hide Print, Parse, Noted, Slice;
    var head := Pad("", 8);
    var line := LineOf(part, head + text, v);
    assert line == head + text + ((if part == Main then Print(v, 2, 4) else "") + "\n");
    Columns(head, text, (if part == Main then Print(v, 2, 4) else "") + "\n");
    NoPart(line);
    var all := ws + [w];
    assert all[|ws| := w.(texts := w.texts + [text[..42]])] == ws + [w.(texts := w.texts + [text[..42]])];
    Notes(WithWords(st, part, ws + [w.(texts := w.texts + [text[..42]])]), part, head + text, v);
  }

  lemma NoPart(line: string)
    requires |Slice(line, 0, 2)| == 2 && Slice(line, 0, 2)[0] == ' '
    ensures PartOf(line).None?
  {
    hide Slice;
    assert "_p"[0] == '_' && "_l"[0] == '_' && "_s"[0] == '_';
  }

  // ---------- Words, parts, files ----------

  /** After words and interrupt values of a part were read. */
  function Grown(st: State, part: Part, ws: seq<Word>, ints: seq<nat>): State {
    var s := WithWords(st, part, ws);
    if part == Main then s.(ints := s.ints + ints) else s
  }

  function RestLines(texts: seq<string>): (r: seq<string>)
    ensures |r| == |texts|
  {
    if texts == [] then [] else [Pad("", 8) + texts[0]] + RestLines(texts[1..])
  }

  lemma {:induction false} RestLinesAt(texts: seq<string>)
    ensures forall i :: 0 <= i < |texts| ==> RestLines(texts)[i] == Pad("", 8) + texts[i]
    decreases |texts|
  {
    if texts != [] {
      RestLinesAt(texts[1..]);
    }
  }

  lemma WordLinesAre(part: Part, w: Word)
    requires w.texts != []
    ensures WordLines(part, w) == [Pad(Label(part, w.number), 8) + w.texts[0]] + RestLines(w.texts[1..])
  {
    hide Label, Pad;
    RestLinesAt(w.texts[1..]);
  }

  lemma OutCons(part: Part, inst: string, rest: seq<string>, v: nat, ints: seq<nat>)
    requires |inst| >= 50
    ensures part == Main ==> Out(part, [inst] + rest, [v] + ints) == [LineOf(part, inst, v)] + Out(part, rest, ints)
    ensures part != Main ==> Out(part, [inst] + rest, ints) == [LineOf(part, inst, v)] + Out(part, rest, ints)
  {
    assert ([inst] + rest)[1..] == rest && ([v] + ints)[1..] == ints;
    assert inst + "" + "\n" == inst + "\n";
  }

  lemma FeedCons(st: State, line: string, rest: seq<string>)
    ensures FeedAll(st, [line] + rest) == if Feed(st, line).None? then None else FeedAll(Feed(st, line).value, rest)
    ensures FeedAll(st, []) == Some(st)
  {
    hide Feed;
    assert ([line] + rest)[1..] == rest;
  }

  lemma RestCons(texts: seq<string>)
    requires texts != []
    ensures RestLines(texts) == [Pad("", 8) + texts[0]] + RestLines(texts[1..])
  {
    hide Pad;
  }

  /** Growing twice is growing once by both. */
  lemma GrownTwice(st: State, part: Part, x: seq<Word>, y: seq<Word>, ks: seq<nat>, js: seq<nat>)
    ensures Grown(Grown(st, part, x, ks), part, y, js) == Grown(st, part, y, ks + js)
    ensures WordsOf(Grown(st, part, x, ks), part) == x && Grown(st, part, x, ks).part == Some(part)
  {
    assert st.ints + ks + js == st.ints + (ks + js);
  }

  lemma FedIsGrown(st: State, part: Part, ws: seq<Word>, v: nat)
    ensures Fed(st, part, ws, v) == Grown(st, part, ws, [v])
    ensures st.part == Some(part) && WordsOf(st, part) == ws ==> Grown(st, part, ws, []) == st
  {
    assert st.ints + [] == st.ints;
  }

  lemma {:induction false} FeedRest(st: State, part: Part, ws: seq<Word>, w: Word, texts: seq<string>, ints: seq<nat>)
    requires (forall i :: 0 <= i < |texts| ==> |texts[i]| >= 42) && Valued(part, |texts|, ints)
    requires st.part == Some(part) && WordsOf(st, part) == ws + [w]
    ensures FeedAll(st, Out(part, RestLines(texts), ints)) ==
              Some(Grown(st, part, ws + [w.(texts := w.texts + CutTexts(texts))], ints))
    decreases |texts|
  {
    hide Print, Feed, LineOf, Pad, FeedAll, RestLines, Out, Fed, Grown, CutTexts, WordsOf;
    var cut := CutTexts(texts);
    if texts == [] {
      assert cut == [] && w.texts + cut == w.texts;
      NoLines(part, ints);
      FeedCons(st, "", []);
      FedIsGrown(st, part, ws + [w], 0);
    } else {
      var v := if part == Main then ints[0] else 0;
      var left := if part == Main then ints[1..] else [];
      var w1 := w.(texts := w.texts + [texts[0][..42]]);
      assert part == Main ==> ints == [v] + left;
      RestCons(texts);
      WideRest(texts[0]);
      OutCons(part, Pad("", 8) + texts[0], RestLines(texts[1..]), v, left);
      FeedMore(st, part, ws, w, texts[0], v);
      FedIsGrown(st, part, ws + [w1], v);
      var next := Fed(st, part, ws + [w1], v);
      FeedCons(st, LineOf(part, Pad("", 8) + texts[0], v), Out(part, RestLines(texts[1..]), left));
      var more := CutTexts(texts[1..]);
      assert w.texts + [texts[0][..42]] + more == w.texts + cut;
      GrownTwice(st, part, ws + [w1], ws + [w1.(texts := w1.texts + more)], [v], left);
      FeedRest(next, part, ws, w1, texts[1..], left);
      GrownInts(st, part, ws + [w1.(texts := w1.texts + more)], [v] + left, ints);
    }
  }

  lemma NoLines(part: Part, ints: seq<nat>)
    ensures Out(part, RestLines([]), ints) == []
  {
  }

  lemma WideRest(text: string)
    requires |text| >= 42
    ensures |Pad("", 8) + text| >= 50
  {
  }

  /** Interrupt values count in the main part only. */
  lemma GrownInts(st: State, part: Part, ws: seq<Word>, ks: seq<nat>, js: seq<nat>)
    requires part == Main ==> ks == js
    ensures Grown(st, part, ws, ks) == Grown(st, part, ws, js)
  {
  }

  lemma FeedWord(st: State, part: Part, w: Word, ints: seq<nat>)
    requires Writable(w) && Valued(part, |w.texts|, ints)
    ensures FeedAll(st, Out(part, WordLines(part, w), ints)) == Some(Grown(st, part, WordsOf(st, part) + [Cut(w)], ints))
  {
    hide Print, Feed, LineOf, Pad, Label, Out, WordLines, RestLines, FeedAll, Fed, Grown;
    var v := if part == Main then ints[0] else 0;
    var left := if part == Main then ints[1..] else [];
    assert part == Main ==> ints == [v] + left;
    WordLinesAre(part, w);
    WideHead(part, w.number, w.texts[0]);
    OutCons(part, Pad(Label(part, w.number), 8) + w.texts[0], RestLines(w.texts[1..]), v, left);
    FeedFirst(st, part, w.number, w.texts[0], v);
    var ws, w1 := WordsOf(st, part), Word(w.number, [w.texts[0][..42]]);
    var next := Fed(st, part, ws + [w1], v);
    FedIsGrown(st, part, ws + [w1], v);
    FeedCons(st, LineOf(part, Pad(Label(part, w.number), 8) + w.texts[0], v), Out(part, RestLines(w.texts[1..]), left));
    var more := CutTexts(w.texts[1..]);
    assert w1.(texts := w1.texts + more) == Cut(w);
    GrownTwice(st, part, ws + [w1], ws + [Cut(w)], [v], left);
    FeedRest(next, part, ws, w1, w.texts[1..], left);
    GrownInts(st, part, ws + [Cut(w)], [v] + left, ints);
  }

  lemma WideHead(part: Part, number: nat, text: string)
    requires |text| >= 42
    ensures |Pad(Label(part, number), 8) + text| >= 50
  {
    hide Label;
  }

  lemma {:induction false} OutSplit(part: Part, x: seq<string>, y: seq<string>, ints: seq<nat>)
    requires part == Main ==> |x| <= |ints|
    ensures Out(part, x + y, ints) == if part == Main then Out(part, x, ints[..|x|]) + Out(part, y, ints[|x|..]) else Out(part, x, ints) + Out(part, y, ints)
    decreases |x|
  {
    hide Print, Pad;
    if x == [] {
      assert x + y == y && ints[0..] == ints;
    } else {
      assert (x + y)[0] == x[0] && (x + y)[1..] == x[1..] + y;
      if part == Main {
        OutSplit(part, x[1..], y, ints[1..]);
        assert ints[1..][..|x| - 1] == ints[..|x|][1..] && ints[1..][|x| - 1..] == ints[|x|..];
      } else {
        OutSplit(part, x[1..], y, ints);
      }
    }
  }

  lemma {:induction false} FeedPart(st: State, part: Part, ws: seq<Word>, ints: seq<nat>)
    requires AllWritable(ws) && Valued(part, |PartLines(part, ws)|, ints)
    ensures FeedAll(st, Out(part, PartLines(part, ws), ints)) ==
              Some(if ws == [] then st else Grown(st, part, WordsOf(st, part) + CutAll(ws), ints))
    decreases |ws|
  {
    hide Print, Feed, WordLines, Out, Writable, Cut, FeedAll, Grown;
    if ws == [] {
      OutNothing(part, ints);
      FeedCons(st, "", []);
    } else {
      var w, rest := ws[0], ws[1..];
      var n := |WordLines(part, w)|;
      OutSplit(part, WordLines(part, w), PartLines(part, rest), ints);
      var here := if part == Main then ints[..n] else [];
      var left := if part == Main then ints[n..] else [];
      FeedWord(st, part, w, here);
      var grown := WordsOf(st, part) + [Cut(w)];
      var next := Grown(st, part, grown, here);
      FeedOn(st, Out(part, WordLines(part, w), here), Out(part, PartLines(part, rest), left));
      FeedPart(next, part, rest, left);
      assert CutAll(ws) == [Cut(w)] + CutAll(rest);
      GrownTwice(st, part, grown, grown + CutAll(rest), here, left);
      assert grown + CutAll(rest) == WordsOf(st, part) + CutAll(ws);
      assert part == Main ==> here + left == ints;
      GrownInts(st, part, WordsOf(st, part) + CutAll(ws), here + left, ints);
      if rest == [] {
        assert CutAll(rest) == [] && grown + CutAll(rest) == grown;
        NoneLeft(part, n, ints);
        assert here + left == here;
      }
    }
  }

  lemma NoneLeft(part: Part, n: nat, ints: seq<nat>)
    requires Valued(part, n + |PartLines(part, [])|, ints)
    ensures part == Main ==> ints[n..] == []
  {
  }

  lemma OutNothing(part: Part, ints: seq<nat>)
    ensures Out(part, [], ints) == [] && PartLines(part, []) == []
  {
  }

  lemma {:induction false} DataBack(data: seq<nat>)
    ensures ParseData(DataLines(data)) == Some(data)
    decreases |data|
  {
    hide Print, Parse, UpTo;
    if data != [] {
      ParsePrint(data[0], 16, 16);
      assert '\n' !in Print(data[0], 16, 16);
      UpToFirst(Print(data[0], 16, 16), '\n', "");
      assert Print(data[0], 16, 16) + ['\n'] + "" == Print(data[0], 16, 16) + "\n";
      assert DataLines(data)[1..] == DataLines(data[1..]);
      assert UpTo(DataLines(data)[0], '\n') == Print(data[0], 16, 16);
      DataBack(data[1..]);
      assert [data[0]] + data[1..] == data;
    }
  }

  lemma TemplateBack(t: nat)
    requires t < 4
    ensures IndexOf(TEMPLATES, UpTo(TEMPLATES[t] + "\n", '\n'), 0) == Some(t)
  {
    UpToFirst(TEMPLATES[t], '\n', "");
    assert TEMPLATES[t] + ['\n'] + "" == TEMPLATES[t] + "\n";
    assert TEMPLATES[0][2] == 'm' && TEMPLATES[1][2] == 's' && TEMPLATES[2][2] == 'u' && TEMPLATES[3][0] == 'v' && TEMPLATES[2][0] == 'p';
    assert TEMPLATES[0][0] == 'p' && TEMPLATES[1][0] == 'p';
  }

  lemma PrintStep(n: nat, b: nat, width: nat, q: nat, d: nat)
    requires 2 <= b <= 16 && d < b && n / b == q && n % b == d && (n > 0 || width > 0)
    ensures Print(n, b, width) == Print(q, b, if width > 0 then width - 1 else 0) + [DIGITS[d]]
  {
    if n == 0 {
      assert q == 0 && d == 0;
    }
  }

  /** Interrupt values are binary, of four digits; labels decimal; data hexadecimal, of sixteen. */
  lemma NumberForms()
    ensures Print(5, 2, 4) == "0101" && Print(17, 10, 1) == "17" && Print(0, 10, 1) == "0" && Print(0xbeef, 16, 16) == "000000000000beef"
  {
    hide Print;
    PrintNone(2);
    PrintNone(10);
    PrintNone(16);
    PrintStep(5, 2, 4, 2, 1);
    PrintStep(2, 2, 3, 1, 0);
    PrintStep(1, 2, 2, 0, 1);
    PrintStep(0, 2, 1, 0, 0);
    PrintStep(17, 10, 1, 1, 7);
    PrintStep(1, 10, 0, 0, 1);
    PrintStep(0, 10, 1, 0, 0);
    PrintStep(0xbeef, 16, 16, 0xbee, 15);
    PrintStep(0xbee, 16, 15, 0xbe, 14);
    PrintStep(0xbe, 16, 14, 0xb, 14);
    PrintStep(0xb, 16, 13, 0, 11);
    ZeroDigits(12);
    assert Print(0, 16, 12) == "000000000000";
  }

  lemma {:induction false} ZeroDigits(w: nat)
    ensures |Print(0, 16, w)| == w && forall i :: 0 <= i < w ==> Print(0, 16, w)[i] == '0'
  {
    if w > 0 {
      ZeroDigits(w - 1);
    }
  }

  /**
   A file byte for byte: template "v-u", one word with label 17 and two instructions, the
   first of them with its interrupt value, and one word of data. The second instruction has a
   value too, the label of the end has none.
   */
  lemma SaveExample()
    ensures Save(Input(3, [], [Word(17, ["nop", "ret"])], [], [5, 0], [0xbeef])) ==
      ["v-u\n", "\n", "_l17:   nop" + Spaces(39) + "0101\n", "        ret" + Spaces(39) + "0000\n", "data:\n", "000000000000beef\n"]
  {
    NumberForms();
    FourZeros();
    NoParts();
    ExampleWord();
    ExampleData();
    hide Print, WordLines, Label, DataLines;
    var w := Word(17, ["nop", "ret"]);
    var xs := PartLines(Main, [w]);
    assert [w][1..] == [];
    assert xs == WordLines(Main, w) + [] == ["_l17:   nop", "        ret"];
    hide PartLines;
    ExampleOut(Label(Main, 1));
    hide Out;
    var x := Input(3, [], [w], [], [5, 0], [0xbeef]);
    assert Out(Prefix, PartLines(Prefix, x.prefix), []) == [] && Out(Suffix, PartLines(Suffix, x.suffix), []) == [];
    assert "v-u" + "\n" == "v-u\n";
  }

  lemma ExampleWord()
    ensures WordLines(Main, Word(17, ["nop", "ret"])) == ["_l17:   nop", "        ret"]
  {
    NumberForms();
    hide Print;
    var r := WordLines(Main, Word(17, ["nop", "ret"]));
    assert Label(Main, 17) == "_l17:";
    assert Spaces(3) == "   " && Pad("_l17:", 8) == "_l17:" + Spaces(3);
    assert Spaces(8) == "        " && Pad("", 8) == "" + Spaces(8);
    assert r[0] == "_l17:" + "   " + "nop" && r[1] == "        " + "ret";
    assert "_l17:" + "   " + "nop" == "_l17:   nop";
    assert "        " + "ret" == "        ret";
    assert r == [r[0], r[1]];
  }

  lemma ExampleData()
    ensures DataLines([0xbeef]) == ["000000000000beef\n"]
  {
    NumberForms();
    hide Print;
    var r := DataLines([0xbeef]);
    assert r[0] == "000000000000beef" + "\n";
    assert "000000000000beef" + "\n" == "000000000000beef\n";
    assert r == [r[0]];
  }

  lemma NoParts()
    ensures PartLines(Prefix, []) == [] && PartLines(Main, []) == [] && PartLines(Suffix, []) == []
    ensures Out(Prefix, [], []) == [] && Out(Suffix, [], []) == []
  {
  }

  lemma FourZeros()
    ensures Print(0, 2, 4) == "0000"
  {
    hide Print;
    PrintNone(2);
    PrintStep(0, 2, 4, 0, 0);
    PrintStep(0, 2, 3, 0, 0);
    PrintStep(0, 2, 2, 0, 0);
    PrintStep(0, 2, 1, 0, 0);
  }

  lemma ExampleOut(end: string)
    requires Print(5, 2, 4) == "0101" && Print(0, 2, 4) == "0000"
    ensures Out(Main, ["_l17:   nop", "        ret"] + [end], [5, 0]) ==
      ["_l17:   nop" + Spaces(39) + "0101\n", "        ret" + Spaces(39) + "0000\n"]
  {
    hide Print;
    var x, y := "_l17:   nop", "        ret";
    assert [x, y] + [end] == [x, y, end] && [x, y, end][1..] == [y, end] && [y, end][1..] == [end];
    assert [5, 0][1..] == [0] && [0][1..] == [];
    assert Out(Main, [end], []) == [];
    assert Pad(x, 50) == x + Spaces(39) && Pad(y, 50) == y + Spaces(39);
    assert Pad(x, 50) + "0101" + "\n" == x + Spaces(39) + "0101\n";
    assert Pad(y, 50) + "0000" + "\n" == y + Spaces(39) + "0000\n";
  }

  /** The lines of the instructions. */
  function InstLines(x: Input): seq<string> {
    Out(Prefix, PartLines(Prefix, x.prefix), []) + Out(Main, MainLines(x.words), x.ints) + Out(Suffix, PartLines(Suffix, x.suffix), [])
  }

  /**
   Reading a saved input gives back its template, its words with their labels and the columns
   of their instructions, one interrupt value per main instruction, and its data, if every
   word fits its columns, there are data, and no instruction looks like the line in front of
   them.
   */
  lemma SaveLoad(x: Input)
    requires x.template < 4 && AllWritable(x.prefix) && AllWritable(x.words) && AllWritable(x.suffix)
    requires Valued(Main, |PartLines(Main, x.words)|, x.ints) && x.data != [] && Clean(InstLines(x))
    ensures Load(Save(x)) == Some(x.(prefix := CutAll(x.prefix), words := CutAll(x.words), suffix := CutAll(x.suffix)))
  {
    hide Print, Feed, Out, PartLines, MainLines, Cut, Writable, UpTo, IndexOf, ParseData, DataLines, ReadFrom, FeedAll, HasData, Valued;
    var p, m, s := Out(Prefix, PartLines(Prefix, x.prefix), []), Out(Main, PartLines(Main, x.words), x.ints), Out(Suffix, PartLines(Suffix, x.suffix), []);
    var tail := ["data:\n"] + DataLines(x.data);
    assert Valued(Prefix, |PartLines(Prefix, x.prefix)|, []) && Valued(Suffix, |PartLines(Suffix, x.suffix)|, []) by { hide *; Unvalued(x); }
    FeedPart(START, Prefix, x.prefix, []);
    var a := if x.prefix == [] then START else Grown(START, Prefix, [] + CutAll(x.prefix), []);
    EndLeftOut(x.words, x.ints);
    FeedPart(a, Main, x.words, x.ints);
    var b := if x.words == [] then a else Grown(a, Main, WordsOf(a, Main) + CutAll(x.words), x.ints);
    FeedPart(b, Suffix, x.suffix, []);
    var c := if x.suffix == [] then b else Grown(b, Suffix, WordsOf(b, Suffix) + CutAll(x.suffix), []);
    FeedOn(START, p, m);
    FeedOn(START, p + m, s);
    ReadOn(START, p + m + s, tail);
    assert Save(x) == [TEMPLATES[x.template] + "\n", "\n"] + (p + m + s + tail);
    assert Save(x)[2..] == p + m + s + tail && Save(x)[0] == TEMPLATES[x.template] + "\n";
    TemplateBack(x.template);
    ReadsData(c, x.data);
    FinalState(x, a, b, c);
  }

  /** With one interrupt value per instruction, none is left for the label of the end. */
  lemma EndLeftOut(ws: seq<Word>, ints: seq<nat>)
    requires Valued(Main, |PartLines(Main, ws)|, ints)
    ensures Out(Main, MainLines(ws), ints) == Out(Main, PartLines(Main, ws), ints)
  {
    hide PartLines, Label;
    var n := |PartLines(Main, ws)|;
    OutSplit(Main, PartLines(Main, ws), [Label(Main, |ws|)], ints);
    assert ints[..n] == ints && ints[n..] == [];
  }

  lemma Unvalued(x: Input)
    ensures Valued(Prefix, |PartLines(Prefix, x.prefix)|, []) && Valued(Suffix, |PartLines(Suffix, x.suffix)|, [])
  {
    hide PartLines;
  }

  lemma ReadsData(st: State, data: seq<nat>)
    ensures ReadFrom(st, ["data:\n"] + DataLines(data)) == Some((st, data))
  {
    hide ParseData, DataLines, Feed;
    DataBack(data);
    assert "data:\n"[..5] == "data:";
    assert (["data:\n"] + DataLines(data))[1..] == DataLines(data);
  }

  lemma FinalState(x: Input, a: State, b: State, c: State)
    requires AllWritable(x.prefix) && AllWritable(x.words) && AllWritable(x.suffix)
    requires Valued(Main, |PartLines(Main, x.words)|, x.ints)
    requires a == if x.prefix == [] then START else Grown(START, Prefix, [] + CutAll(x.prefix), [])
    requires b == if x.words == [] then a else Grown(a, Main, WordsOf(a, Main) + CutAll(x.words), x.ints)
    requires c == if x.suffix == [] then b else Grown(b, Suffix, WordsOf(b, Suffix) + CutAll(x.suffix), [])
    ensures c.prefix == CutAll(x.prefix) && c.words == CutAll(x.words) && c.suffix == CutAll(x.suffix) && c.ints == x.ints
  {
    hide Writable, Cut, WordLines;
    assert x.words == [] ==> PartLines(Main, x.words) == [];
  }
}
