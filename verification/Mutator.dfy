/**
 Generating, mutating and merging test programs (mutator.py, word.py, inst_generator.py): every
 jump, branch and trap return of every program leads forward, so every run of it ends.

 A program part is a sequence of words. Of a word the model keeps its label number, whether it
 transfers control, and, once it is populated, to which label. Random choices are parameters.
 */
module Mutator {
  import opened Options

  /** A unit of instructions under one label. */
  datatype Word = Word(number: int, jumps: bool, populated: bool, target: int)

  /** The word has a label it transfers control to. */
  predicate Leads(w: Word) {
    w.jumps && w.populated
  }

  /** Word `i` carries label `i`, and its target lies behind it. */
  predicate ForwardAt(ws: seq<Word>, i: int)
    requires 0 <= i < |ws|
  {
    ws[i].number == i && (Leads(ws[i]) ==> i < ws[i].target <= |ws|)
  }

  predicate Forward(ws: seq<Word>) {
    forall i :: 0 <= i < |ws| ==> ForwardAt(ws, i)
  }

  predicate AllPopulated(ws: seq<Word>) {
    forall i :: 0 <= i < |ws| ==> ws[i].populated
  }

  /** A choice for each word among the labels behind it, the end label included. */
  predicate Behind(picks: seq<int>, n: nat) {
    |picks| == n && forall i :: 0 <= i < n ==> i < picks[i] <= n
  }

  // ---------- Every run ends ----------

  /** Control goes from `i` to `j`: to the next word, or to the target. */
  predicate Edge(ws: seq<Word>, i: int, j: int) {
    0 <= i < |ws| && (j == i + 1 || (Leads(ws[i]) && j == ws[i].target))
  }

  /** A run of the program through the words of a part. */
  predicate Path(ws: seq<Word>, path: seq<int>) {
    forall k :: 0 <= k < |path| - 1 ==> Edge(ws, path[k], path[k + 1])
  }

  /** No run visits more words than there are, counting the end, and one that stops elsewhere can go on. */
  lemma {:induction false} RunsEnd(ws: seq<Word>, path: seq<int>)
    requires Forward(ws) && Path(ws, path) && path != [] && 0 <= path[0] <= |ws|
    ensures |path| <= |ws| - path[0] + 1
    ensures 0 <= path[|path| - 1] <= |ws|
    decreases |path|
  {
    if |path| > 1 {
      assert Edge(ws, path[0], path[1]) && ForwardAt(ws, path[0]);
      var rest := path[1..];
      assert forall k :: 0 <= k < |rest| ==> rest[k] == path[k + 1];
      RunsEnd(ws, rest);
    }
  }

  // ---------- Labels are reset ----------

  /** The populated words carry rising labels and lead to higher ones. */
  predicate Rising(ws: seq<Word>) {
    && (forall i, j :: 0 <= i < j < |ws| && ws[i].populated && ws[j].populated ==> ws[i].number < ws[j].number)
    && (forall i :: 0 <= i < |ws| && Leads(ws[i]) ==> ws[i].number < ws[i].target)
  }

  /** The populated word that carries the label, if one does. */
  predicate Carries(ws: seq<Word>, k: int, number: int) {
    0 <= k < |ws| && ws[k].populated && ws[k].number == number
  }

  /** A jump leads where it led, if that word is still there, and to the chosen label otherwise. */
  ghost predicate Retargeted(ws: seq<Word>, r: seq<Word>, picks: seq<int>)
    requires |r| == |ws| <= |picks|
  {
    && (forall i, k :: 0 <= i < |r| && Leads(ws[i]) && Carries(ws, k, ws[i].target) ==> r[i].target == k)
    && (forall i :: 0 <= i < |r| && Leads(ws[i]) && !(exists k :: Carries(ws, k, ws[i].target)) ==> r[i].target == picks[i])
  }

  /**
   `reset_labels`: word `i` becomes label `i`. A target whose word is still there follows it;
   any other is chosen anew among the labels behind the word.
   */
  method ResetLabels(ws: seq<Word>, picks: seq<int>) returns (r: seq<Word>)
    requires Behind(picks, |ws|)
    ensures |r| == |ws|
    ensures forall i :: 0 <= i < |r| ==> r[i] == ws[i].(number := i, target := r[i].target)
    ensures Rising(ws) ==> Forward(r)
    ensures Rising(ws) ==> Retargeted(ws, r, picks)
    ensures forall i :: 0 <= i < |r| && Leads(ws[i]) && !(exists k :: Carries(ws, k, ws[i].target)) ==> r[i].target == picks[i]
  {
    var map_: map<int, int> := map[];
    r := [];
    for n := 0 to |ws|
      invariant |r| == n && forall i :: 0 <= i < n ==> r[i] == ws[i].(number := i)
      invariant forall x :: x in map_ ==> map_[x] < n && Carries(ws, map_[x], x)
      invariant forall k :: 0 <= k < n && ws[k].populated ==> ws[k].number in map_
    {
      if ws[n].populated {
        map_ := map_[ws[n].number := n];
      }
      r := r + [ws[n].(number := n)];
    }
    for n := 0 to |ws|
      invariant |r| == |ws|
      invariant forall i :: n <= i < |ws| ==> r[i] == ws[i].(number := i)
      invariant forall i :: 0 <= i < n ==>
        r[i] == ws[i].(number := i, target := if !Leads(ws[i]) then ws[i].target
                                              else if ws[i].target in map_ then map_[ws[i].target] else picks[i])
    {
      if Leads(r[n]) {
        var target := if r[n].target in map_ then map_[r[n].target] else picks[n];
        r := r[n := r[n].(target := target)];
      }
    }
    if Rising(ws) {
      forall i | 0 <= i < |ws|
        ensures ForwardAt(r, i)
      {
      }
    }
  }

  // ---------- Populating ----------

  /** `populate_word` for every word: those not yet populated get a target behind them. */
  method Populate(ws: seq<Word>, picks: seq<int>) returns (r: seq<Word>)
    requires Behind(picks, |ws|)
    ensures |r| == |ws| && AllPopulated(r)
    ensures forall i :: 0 <= i < |r| ==> r[i] == if ws[i].populated then ws[i] else ws[i].(populated := true, target := picks[i])
    ensures Forward(ws) ==> Forward(r)
  {
    r := ws;
    for n := 0 to |ws|
      invariant |r| == |ws|
      invariant forall i :: 0 <= i < n ==> r[i] == if ws[i].populated then ws[i] else ws[i].(populated := true, target := picks[i])
      invariant forall i :: n <= i < |ws| ==> r[i] == ws[i]
    {
      if !r[n].populated {
        r := r[n := r[n].(populated := true, target := picks[n])];
      }
    }
    if Forward(ws) {
      forall i | 0 <= i < |r|
        ensures ForwardAt(r, i)
      {
        assert ForwardAt(ws, i);
      }
    }
  }

  /** A fresh word: not populated, under whatever label the generator counted. */
  predicate Fresh(w: Word) {
    !w.populated
  }

  // ---------- Mutation ----------

  /** What happens to a word: it stays, it stays and a fresh word follows, or it goes. */
  datatype Choice = Keep | Extend(extra: Word) | Drop

  function Chosen(w: Word, c: Choice): seq<Word> {
    match c
    case Keep => [w]
    case Extend(extra) => [w, extra]
    case Drop => []
  }

  function Mutated(ws: seq<Word>, cs: seq<Choice>): seq<Word>
    requires |cs| == |ws|
  {
    if ws == [] then [] else Mutated(ws[..|ws| - 1], cs[..|ws| - 1]) + Chosen(ws[|ws| - 1], cs[|ws| - 1])
  }

  /** How many words stay, and how many are followed by a fresh one. */
  function Kept(cs: seq<Choice>): nat {
    if cs == [] then 0 else (if cs[0].Keep? then 1 else 0) + Kept(cs[1..])
  }

  function Extended(cs: seq<Choice>): nat {
    if cs == [] then 0 else (if cs[0].Extend? then 1 else 0) + Extended(cs[1..])
  }

  lemma {:induction false} CountsMore(cs: seq<Choice>, c: Choice)
    ensures Kept(cs + [c]) == Kept(cs) + if c.Keep? then 1 else 0
    ensures Extended(cs + [c]) == Extended(cs) + if c.Extend? then 1 else 0
    decreases |cs|
  {
    if cs != [] {
      assert (cs + [c])[1..] == cs[1..] + [c];
      CountsMore(cs[1..], c);
    }
  }

  lemma {:induction false} MutatedLength(ws: seq<Word>, cs: seq<Choice>)
    requires |cs| == |ws|
    ensures |Mutated(ws, cs)| == Kept(cs) + 2 * Extended(cs)
    decreases |ws|
  {
    if ws != [] {
      var l := |ws| - 1;
      MutatedLength(ws[..l], cs[..l]);
      CountsMore(cs[..l], cs[l]);
      assert cs[..l] + [cs[l]] == cs;
    }
  }

  /**
   Every word that is not dropped stands behind what the words in front of it have become, its
   fresh word right behind it; a dropped word leaves nothing.
   */
  lemma {:induction false} MutatedInOrder(ws: seq<Word>, cs: seq<Choice>, i: nat)
    requires |cs| == |ws| && i < |ws|
    ensures var r, m := Mutated(ws, cs), Kept(cs[..i]) + 2 * Extended(cs[..i]);
      && |r| == Kept(cs) + 2 * Extended(cs)
      && (!cs[i].Drop? ==> m < |r| && r[m] == ws[i])
      && (cs[i].Extend? ==> m + 1 < |r| && r[m + 1] == cs[i].extra)
      && Mutated(ws[..i + 1], cs[..i + 1]) <= r
      && |Mutated(ws[..i + 1], cs[..i + 1])| == m + match cs[i] case Keep => 1 case Extend(_) => 2 case Drop => 0
    decreases |ws|
  {
    hide Mutated, Kept, Extended;
    var l := |ws| - 1;
    MutatedLength(ws, cs);
    MutatedLength(ws[..i], cs[..i]);
    MutatedLast(ws, cs);
    if i < l {
      assert ws[..l][..i + 1] == ws[..i + 1] && cs[..l][..i + 1] == cs[..i + 1] && cs[..l][..i] == cs[..i];
      MutatedInOrder(ws[..l], cs[..l], i);
    } else {
      assert ws[..i + 1] == ws && cs[..i + 1] == cs;
    }
  }

  lemma MutatedLast(ws: seq<Word>, cs: seq<Choice>)
    requires |cs| == |ws| > 0
    ensures var l := |ws| - 1;
            Mutated(ws, cs) == Mutated(ws[..l], cs[..l]) + Chosen(ws[l], cs[l])
  {
  }

  predicate FreshChoices(cs: seq<Choice>) {
    forall i :: 0 <= i < |cs| && cs[i].Extend? ==> Fresh(cs[i].extra)
  }

  /** All populated words carry labels below `n`. */
  predicate Below(ws: seq<Word>, n: int) {
    forall i :: 0 <= i < |ws| && ws[i].populated ==> ws[i].number < n
  }

  lemma {:induction false} MutatedRises(ws: seq<Word>, cs: seq<Choice>, n: int)
    requires |cs| == |ws| && FreshChoices(cs) && Rising(ws) && Below(ws, n)
    ensures Rising(Mutated(ws, cs)) && Below(Mutated(ws, cs), n)
    decreases |ws|
  {
    if ws != [] {
      var l := |ws| - 1;
      var w := ws[l];
      MutatedRises(ws[..l], cs[..l], if w.populated then w.number else n);
      Appended(Mutated(ws[..l], cs[..l]), w, cs[l], n);
    }
  }

  lemma Appended(ws: seq<Word>, w: Word, c: Choice, n: int)
    requires Rising(ws) && (c.Extend? ==> Fresh(c.extra))
    requires if w.populated then Below(ws, w.number) && w.number < n && (Leads(w) ==> w.number < w.target) else Below(ws, n)
    ensures Rising(ws + Chosen(w, c)) && Below(ws + Chosen(w, c), n)
  {
  }

  lemma CutRises(ws: seq<Word>, n: nat)
    requires Rising(ws) && n <= |ws|
    ensures Rising(ws[..n])
  {
  }

  /** `mutate_words`. */
  method MutateWords(seed: seq<Word>, cs: seq<Choice>, limit: nat, picks: seq<int>) returns (r: seq<Word>)
    requires |cs| == |seed| && FreshChoices(cs) && Rising(seed)
    requires var m := |Mutated(seed, cs)|; Behind(picks, if m < limit then m else limit)
    ensures Forward(r) && |r| == |picks|
    ensures |r| <= |Mutated(seed, cs)| && forall i :: 0 <= i < |r| ==> r[i] == Mutated(seed, cs)[i].(number := i, target := r[i].target)
    ensures Retargeted(Mutated(seed, cs)[..|r|], r, picks)
  {
    var words: seq<Word> := [];
    for i := 0 to |seed|
      invariant words == Mutated(seed[..i], cs[..i])
    {
      assert seed[..i + 1][..i] == seed[..i] && cs[..i + 1][..i] == cs[..i];
      words := words + Chosen(seed[i], cs[i]);
    }
    assert seed[..|seed|] == seed && cs[..|seed|] == cs;
    hide Retargeted, Mutated, Rising;
    MutatedRises(seed, cs, Bound(seed));
    if |words| > limit {
      CutRises(words, limit);
      words := words[..limit];
    }
    assert words == Mutated(seed, cs)[..|words|];
    r := ResetLabels(words, picks);
  }

  /** A label above those of all words. */
  function Bound(ws: seq<Word>): (n: int)
    ensures Below(ws, n)
  {
    if ws == [] then 0
    else
      var m := Bound(ws[..|ws| - 1]);
      if ws[|ws| - 1].number < m then m else ws[|ws| - 1].number + 1
  }

  lemma ForwardRises(ws: seq<Word>)
    requires Forward(ws)
    ensures Rising(ws)
  {
    forall i | 0 <= i < |ws|
      ensures ws[i].number == i && (Leads(ws[i]) ==> i < ws[i].target)
    {
      assert ForwardAt(ws, i);
    }
  }

  /** The front of one program and the back of another still carry rising labels. */
  lemma MergeRises(x: seq<Word>, y: seq<Word>, i: nat)
    requires Forward(x) && Forward(y) && i <= |x| && i <= |y|
    ensures Rising(x[..i] + y[i..])
  {
    var z := x[..i] + y[i..];
    forall k | 0 <= k < |z|
      ensures z[k].number == k && (Leads(z[k]) ==> k < z[k].target)
    {
      if k < i {
        assert ForwardAt(x, k);
      } else {
        assert ForwardAt(y, k);
      }
    }
  }

  // ---------- The corpus ----------

  datatype Phase = Generation | Mutation(seed: nat) | Merge(first: nat, second: nat, at: nat)

  class Corpus {
    var programs: seq<seq<Word>>
    const size: nat

    ghost predicate Valid()
      reads this
    {
      forall i :: 0 <= i < |programs| ==> Forward(programs[i]) && AllPopulated(programs[i])
    }

    constructor (n: nat)
      ensures Valid() && size == n && programs == []
    {
      size := n;
      programs := [];
    }

    /** The words that a phase starts from; none when they are to be generated. */
    function Seed(phase: Phase): (r: seq<Word>)
      reads this
      requires phase.Mutation? ==> phase.seed < |programs|
      requires phase.Merge? ==>
        phase.first < |programs| && phase.second < |programs| && phase.at <= |programs[phase.first]| && phase.at <= |programs[phase.second]|
      ensures phase.Merge? ==>
        && |r| == |programs[phase.second]|
        && forall n :: 0 <= n < |r| ==> r[n] == programs[if n < phase.at then phase.first else phase.second][n]
    {
      match phase
      case Generation => []
      case Mutation(i) => programs[i]
      case Merge(i, j, k) => programs[i][..k] + programs[j][k..]
    }

    /** `get`: a new program from the generator, or from the corpus. */
    method Get(phase: Phase, made: seq<Word>, cs: seq<Choice>, limit: nat, picks: seq<int>, more: seq<int>) returns (p: seq<Word>)
      requires Valid()
      requires phase.Mutation? ==> phase.seed < |programs|
      requires phase.Merge? ==>
        phase.first < |programs| && phase.second < |programs| && phase.at <= |programs[phase.first]| && phase.at <= |programs[phase.second]|
      requires phase.Generation? ==> Generated(made) && Behind(more, |made|)
      requires !phase.Generation? ==>
        && |cs| == |Seed(phase)| && FreshChoices(cs)
        && var m := |Mutated(Seed(phase), cs)|; Behind(picks, if m < limit then m else limit) && Behind(more, |picks|)
      ensures Forward(p) && AllPopulated(p)
      ensures var from := if phase.Generation? then made else Mutated(Seed(phase), cs);
              && |p| == (if phase.Generation? then |made| else |picks|) && |p| <= |from|
              && forall i :: 0 <= i < |p| ==> p[i] == from[i].(number := i, populated := true, target := p[i].target)
    {
      var words;
      match phase {
        case Generation =>
          words := made;
        case Mutation(i) =>
          ForwardRises(programs[i]);
          words := MutateWords(programs[i], cs, limit, picks);
        case Merge(i, j, k) =>
          MergeRises(programs[i], programs[j], k);
          words := MutateWords(programs[i][..k] + programs[j][k..], cs, limit, picks);
      }
      p := Populate(words, more);
    }

    /** `add_corpus`: the oldest program goes when there are too many. */
    method Add(p: seq<Word>)
      requires Valid() && Forward(p) && AllPopulated(p)
      modifies this
      ensures Valid()
      ensures programs == (if |old(programs)| + 1 > size then (old(programs) + [p])[1..] else old(programs) + [p])
    {
      programs := programs + [p];
      if |programs| > size {
        programs := programs[1..];
      }
    }
  }

  /** What `get_word` delivers after a reset: label after label, none populated. */
  predicate Generated(ws: seq<Word>) {
    forall i :: 0 <= i < |ws| ==> ws[i].number == i && Fresh(ws[i])
  }
}
