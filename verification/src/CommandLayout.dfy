/** What a command line says, by how it is laid out: gaps, bare text and quoted text. Every line has such a layout, and
    parsing gives what the layout says. */
module CommandLayout {
  import opened Options
  import opened Command

  datatype Item = Gap(text: string) | Bare(text: string) | Quote(q: char, text: string)

  /** The items of a line, and the quoted text that is still open at its end, if any. */
  datatype Layout = Layout(items: seq<Item>, open: Option<Open>)
  datatype Open = Open(q: char, text: string)

  predicate AllSpaces(t: string) {
    forall c :: c in t ==> IsSpace(c)
  }

  /** Neither spaces nor quotes. */
  predicate Plain(t: string) {
    forall c :: c in t ==> !IsSpace(c) && c != '"' && c != '\''
  }

  predicate EndsInBackslash(t: string) {
    t != "" && t[|t| - 1] == '\\'
  }

  /** Every such quote in the text is behind a backslash. */
  predicate NoEnd(q: char, t: string) {
    forall i :: 0 <= i < |t| && t[i] == q ==> i > 0 && t[i - 1] == '\\'
  }

  predicate ItemOk(it: Item) {
    match it
    case Gap(t) => t != "" && AllSpaces(t)
    case Bare(t) => Plain(t)
    case Quote(q, t) => (q == '"' || q == '\'') && NoEnd(q, t) && !EndsInBackslash(t)
  }

  predicate ItemsOk(items: seq<Item>) {
    forall it :: it in items ==> ItemOk(it)
  }

  predicate LayoutOk(l: Layout) {
    && ItemsOk(l.items)
    && (l.open.Some? ==> (l.open.value.q == '"' || l.open.value.q == '\'') && NoEnd(l.open.value.q, l.open.value.text))
  }

  function Shown(it: Item): string {
    if it.Quote? then [it.q] + it.text + [it.q] else it.text
  }

  function ShownAll(items: seq<Item>): string {
    if items == [] then "" else ShownAll(items[..|items| - 1]) + Shown(items[|items| - 1])
  }

  function Rendered(l: Layout): string {
    if l.open.None? then ShownAll(l.items) else ShownAll(l.items) + ([l.open.value.q] + l.open.value.text)
  }

  // ----- what a layout says

  /** The finished words and the one at hand. */
  datatype Words = Words(done: seq<string>, current: string)
  {
    function Ended(): seq<string> {
      if current == "" then done else done + [current]
    }
  }

  /** Gaps end words; bare and quoted text go on with them. */
  function Said(items: seq<Item>): Words {
    if items == [] then Words([], "") else
    var (before, it) := (Said(items[..|items| - 1]), items[|items| - 1]);
    if it.Gap? then Words(before.Ended(), "") else before.(current := before.current + it.text)
  }

  function Meant(l: Layout): Result {
    var words := Said(l.items).Ended();
    if l.open.Some? then Unclosed else if words == [] then Empty else Ok(words)
  }

  // ----- reading one character, gap or text more

  lemma {:induction false} RunMore(s: string, c: char)
    ensures Run(s + [c], |s| + 1) == Step(Run(s, |s|), EndsInBackslash(s), c)
  {
    RunPrefix(s, [c], |s|);
  }

  predicate At(s: string, parts: seq<string>, current: string) {
    Run(s, |s|) == State(parts, current, false, Run(s, |s|).quote)
  }

  predicate Inside(s: string, parts: seq<string>, current: string, q: char) {
    Run(s, |s|) == State(parts, current, true, q)
  }

  lemma {:induction false} Snoc(s: string, t: string)
    requires t != ""
    ensures s + t == (s + t[..|t| - 1]) + [t[|t| - 1]] && t == t[..|t| - 1] + [t[|t| - 1]]
  {
  }

  lemma {:induction false} RunGap(s: string, t: string, w: Words)
    requires At(s, w.done, w.current) && AllSpaces(t) && t != ""
    ensures At(s + t, w.Ended(), "")
    decreases |t|
  {
    Snoc(s, t);
    var u, c := t[..|t| - 1], t[|t| - 1];
    assert IsSpace(c) && !IsQuote(c);
    RunMore(s + u, c);
    if u == "" {
      assert s + u == s;
    } else {
      assert AllSpaces(u);
      RunGap(s, u, w);
    }
  }

  lemma {:induction false} RunBare(s: string, t: string, parts: seq<string>, current: string)
    requires At(s, parts, current) && Plain(t)
    ensures At(s + t, parts, current + t)
    decreases |t|
  {
    if t == "" {
      assert s + t == s && current + t == current;
    } else {
      Snoc(s, t);
      Snoc(current, t);
      var u, c := t[..|t| - 1], t[|t| - 1];
      assert Plain(u) && c in t;
      RunBare(s, u, parts, current);
      RunMore(s + u, c);
    }
  }

  lemma {:induction false} RunOpen(s: string, q: char, t: string, parts: seq<string>, current: string)
    requires At(s, parts, current) && IsQuote(q) && NoEnd(q, t)
    ensures Inside(s + ([q] + t), parts, current + t, q)
    decreases |t|
  {
    if t == "" {
      assert s + ([q] + t) == s + [q] && current + t == current;
      RunMore(s, q);
    } else {
      var u, c := t[..|t| - 1], t[|t| - 1];
      Snoc(current, t);
      assert s + ([q] + t) == (s + ([q] + u)) + [c];
      RunOpen(s, q, u, parts, current);
      RunMore(s + ([q] + u), c);
      LastOf(s, q, u);
      assert u != "" ==> u[|u| - 1] == t[|t| - 2];
    }
  }

  lemma {:induction false} LastOf(s: string, q: char, u: string)
    requires IsQuote(q)
    ensures EndsInBackslash(s + ([q] + u)) == EndsInBackslash(u)
  {
  }

  lemma {:induction false} RunQuote(s: string, q: char, t: string, parts: seq<string>, current: string)
    requires At(s, parts, current) && ItemOk(Quote(q, t))
    ensures At(s + Shown(Quote(q, t)), parts, current + t)
  {
    RunOpen(s, q, t, parts, current);
    RunMore(s + ([q] + t), q);
    LastOf(s, q, t);
    assert s + Shown(Quote(q, t)) == (s + ([q] + t)) + [q];
  }

  lemma {:induction false} ItemsRun(items: seq<Item>)
    requires ItemsOk(items)
    ensures At(ShownAll(items), Said(items).done, Said(items).current)
    decreases |items|
  {
    if items != [] {
      var before, it := items[..|items| - 1], items[|items| - 1];
      assert it in items;
      ItemsRun(before);
      var w := Said(before);
      match it
      case Gap(t) => RunGap(ShownAll(before), t, w);
      case Bare(t) => RunBare(ShownAll(before), t, w.done, w.current);
      case Quote(q, t) => RunQuote(ShownAll(before), q, t, w.done, w.current);
    }
  }

  // ----- trimming makes no difference

  lemma {:induction false} RunSkip(s: string, n: nat)
    requires s != "" && IsSpace(s[0]) && n < |s|
    ensures Run(s, n + 1) == Run(s[1..], n)
  {
    if n == 0 {
      assert Run(s, 1) == Step(START, EscapedAt(s, 0), s[0]);
    } else {
      RunSkip(s, n - 1);
      assert EscapedAt(s, n) == EscapedAt(s[1..], n - 1);
    }
  }

  lemma {:induction false} TrailingSpace(s: string, c: char)
    requires IsSpace(c)
    ensures Finish(Run(s + [c], |s| + 1)) == Finish(Run(s, |s|))
  {
    RunMore(s, c);
    if Run(s, |s|).inQuote {
      QuoteKnown(s, |s|);
    }
  }

  lemma {:induction false} WithoutLast(s: string)
    requires s != "" && IsSpace(s[|s| - 1])
    ensures Finish(Run(s[..|s| - 1], |s| - 1)) == Finish(Run(s, |s|))
  {
    Snoc("", s);
    TrailingSpace(s[..|s| - 1], s[|s| - 1]);
  }

  lemma {:induction false} TrimRuns(s: string)
    ensures Finish(Run(TrimSpace(s), |TrimSpace(s)|)) == Finish(Run(s, |s|))
    decreases |s|
  {
    if s != "" {
      if IsSpace(s[0]) {
        TrimRuns(s[1..]);
        RunSkip(s, |s| - 1);
      } else if IsSpace(s[|s| - 1]) {
        TrimRuns(s[..|s| - 1]);
        WithoutLast(s);
      }
    }
  }

  lemma {:induction false} ParsedUntrimmed(s: string)
    ensures Parsed(s) == Finish(Run(s, |s|))
  {
    TrimRuns(s);
  }

  // ----- every line has a layout

  lemma {:induction false} OneMoreItem(items: seq<Item>, it: Item)
    ensures ShownAll(items + [it]) == ShownAll(items) + Shown(it)
    ensures ItemsOk(items) && ItemOk(it) ==> ItemsOk(items + [it])
  {
    assert (items + [it])[..|items|] == items;
  }

  /** The layout of one character more. */
  function Extended(l: Layout, c: char): Layout
    requires LayoutOk(l)
  {
    if l.open.None? then
      if c == '"' || c == '\'' then l.(open := Some(Open(c, "")))
      else l.(items := l.items + [if IsSpace(c) then Gap([c]) else Bare([c])])
    else
      var (q, t) := (l.open.value.q, l.open.value.text);
      if c == q && !EndsInBackslash(t) then Layout(l.items + [Quote(q, t)], None)
      else l.(open := Some(Open(q, t + [c])))
  }

  lemma {:induction false} ExtendsBare(l: Layout, c: char)
    requires LayoutOk(l) && l.open.None?
    ensures LayoutOk(Extended(l, c)) && Rendered(Extended(l, c)) == Rendered(l) + [c]
  {
    if IsQuote(c) {
      assert [c] + "" == [c];
    } else {
      OneMoreItem(l.items, if IsSpace(c) then Gap([c]) else Bare([c]));
    }
  }

  lemma {:induction false} NoEndMore(q: char, t: string, c: char)
    requires NoEnd(q, t) && (c != q || EndsInBackslash(t))
    ensures NoEnd(q, t + [c])
  {
  }

  lemma {:induction false} Longer(a: string, q: char, t: string, c: char)
    ensures a + ([q] + t) + [c] == a + ([q] + (t + [c])) == a + ([q] + t + [c])
  {
  }

  lemma {:induction false} ExtendsQuoted(l: Layout, c: char)
    requires LayoutOk(l) && l.open.Some?
    ensures LayoutOk(Extended(l, c)) && Rendered(Extended(l, c)) == Rendered(l) + [c]
  {
    var (q, t) := (l.open.value.q, l.open.value.text);
    Longer(ShownAll(l.items), q, t, c);
    if c == q && !EndsInBackslash(t) {
      OneMoreItem(l.items, Quote(q, t));
    } else {
      NoEndMore(q, t, c);
    }
  }

  lemma {:induction false} OneMoreChar(l: Layout, c: char) returns (l': Layout)
    requires LayoutOk(l)
    ensures LayoutOk(l') && Rendered(l') == Rendered(l) + [c]
  {
    if l.open.None? {
      ExtendsBare(l, c);
    } else {
      ExtendsQuoted(l, c);
    }
    l' := Extended(l, c);
  }

  lemma {:induction false} EveryLine(s: string) returns (l: Layout)
    ensures LayoutOk(l) && Rendered(l) == s
    decreases |s|
  {
    if s == "" {
      l := Layout([], None);
    } else {
      var before := EveryLine(s[..|s| - 1]);
      l := OneMoreChar(before, s[|s| - 1]);
      Snoc("", s);
    }
  }

  // ----- parsing

  lemma {:induction false} LayoutParses(l: Layout)
    requires LayoutOk(l)
    ensures Parsed(Rendered(l)) == Meant(l)
  {
    ItemsRun(l.items);
    ParsedUntrimmed(Rendered(l));
    if l.open.Some? {
      var w := Said(l.items);
      RunOpen(ShownAll(l.items), l.open.value.q, l.open.value.text, w.done, w.current);
    }
  }

  /** MAIN RESULT. A line parses to what any layout of it says, and every line has one. */
  lemma {:induction false} ParsedIff(cmd: string, r: Result)
    ensures Parsed(cmd) == r <==> exists l :: LayoutOk(l) && Rendered(l) == cmd && Meant(l) == r
  {
    var l := EveryLine(cmd);
    LayoutParses(l);
    if l' :| LayoutOk(l') && Rendered(l') == cmd && Meant(l') == r {
      LayoutParses(l');
    }
  }

  /** A line is refused for an open quote exactly when a layout of it ends in one. */
  lemma {:induction false} UnclosedIff(cmd: string)
    ensures Parsed(cmd) == Unclosed <==> exists l :: LayoutOk(l) && Rendered(l) == cmd && l.open.Some?
  {
    ParsedIff(cmd, Unclosed);
    if l :| LayoutOk(l) && Rendered(l) == cmd && l.open.Some? {
      assert Meant(l) == Unclosed;
    }
  }

  // ----- words between gaps

  function Content(pieces: seq<Item>): string {
    if pieces == [] then "" else Content(pieces[..|pieces| - 1]) + pieces[|pieces| - 1].text
  }

  /** Bare and quoted pieces that are not all empty. */
  predicate IsWord(pieces: seq<Item>) {
    ItemsOk(pieces) && Content(pieces) != "" && forall it :: it in pieces ==> !it.Gap?
  }

  function GapOf(t: string): seq<Item> {
    if t == "" then [] else [Gap(t)]
  }

  function Contents(words: seq<seq<Item>>): seq<string> {
    seq(|words|, i requires 0 <= i < |words| => Content(words[i]))
  }

  /** The words, with `lead` before the first and the gap of the same number behind each. */
  function Between(lead: string, words: seq<seq<Item>>, gaps: seq<string>): seq<Item>
    requires |gaps| == |words|
  {
    if words == [] then GapOf(lead)
    else Between(lead, words[..|words| - 1], gaps[..|words| - 1]) + words[|words| - 1] + GapOf(gaps[|words| - 1])
  }

  /** Gaps are spaces; only the last may be missing. */
  predicate GapsOk(gaps: seq<string>) {
    forall i :: 0 <= i < |gaps| ==> AllSpaces(gaps[i]) && (i < |gaps| - 1 ==> gaps[i] != "")
  }

  lemma {:induction false} SaidPiece(items: seq<Item>, it: Item)
    requires !it.Gap?
    ensures Said(items + [it]) == Said(items).(current := Said(items).current + it.text)
  {
    assert (items + [it])[..|items|] == items;
  }

  lemma {:induction false} Joined(a: string, b: string, c: string)
    ensures (a + b) + c == a + (b + c)
  {
  }

  lemma {:induction false} SaidPieces(items: seq<Item>, pieces: seq<Item>)
    requires forall it :: it in pieces ==> !it.Gap?
    ensures Said(items + pieces) == Said(items).(current := Said(items).current + Content(pieces))
    decreases |pieces|
  {
    if pieces == [] {
      assert items + pieces == items;
    } else {
      var before, it := pieces[..|pieces| - 1], pieces[|pieces| - 1];
      assert it in pieces;
      SaidPieces(items, before);
      SaidPiece(items + before, it);
      assert items + pieces == items + before + [it];
      Joined(Said(items).current, Content(before), it.text);
    }
  }

  lemma {:induction false} SaidGap(items: seq<Item>, t: string)
    ensures Said(items + GapOf(t)) == if t == "" then Said(items) else Words(Said(items).Ended(), "")
  {
    if t == "" {
      assert items + [] == items;
    } else {
      assert (items + [Gap(t)])[..|items|] == items;
    }
  }

  lemma {:induction false} ContentsMore(words: seq<seq<Item>>)
    requires words != []
    ensures Contents(words) == Contents(words[..|words| - 1]) + [Content(words[|words| - 1])]
  {
  }

  lemma {:induction false} SaidWord(items: seq<Item>, word: seq<Item>, gap: string)
    requires IsWord(word) && Said(items).current == ""
    ensures Said(items + word + GapOf(gap)).Ended() == Said(items).Ended() + [Content(word)]
    ensures gap != "" ==> Said(items + word + GapOf(gap)).current == ""
  {
    SaidPieces(items, word);
    assert "" + Content(word) == Content(word);
    assert Said(items + word) == Words(Said(items).done, Content(word));
    SaidGap(items + word, gap);
  }

  lemma {:induction false} BetweenSays(lead: string, words: seq<seq<Item>>, gaps: seq<string>)
    requires |gaps| == |words| && GapsOk(gaps) && forall w :: w in words ==> IsWord(w)
    ensures Said(Between(lead, words, gaps)).Ended() == Contents(words)
    ensures words == [] || gaps[|words| - 1] != "" ==> Said(Between(lead, words, gaps)).current == ""
    decreases |words|
  {
    if words == [] {
      SaidGap([], lead);
      assert [] + GapOf(lead) == GapOf(lead);
    } else {
      var n := |words| - 1;
      BetweenSays(lead, words[..n], gaps[..n]);
      SaidWord(Between(lead, words[..n], gaps[..n]), words[n], gaps[n]);
      ContentsMore(words);
    }
  }

  lemma {:induction false} BetweenOk(lead: string, words: seq<seq<Item>>, gaps: seq<string>)
    requires |gaps| == |words| && AllSpaces(lead) && GapsOk(gaps) && forall w :: w in words ==> IsWord(w)
    ensures ItemsOk(Between(lead, words, gaps))
    decreases |words|
  {
    if words != [] {
      var n := |words| - 1;
      BetweenOk(lead, words[..n], gaps[..n]);
      assert IsWord(words[n]);
    }
  }

  /** MAIN RESULT. Words of bare and quoted pieces, with gaps of any spaces between them, before and behind, come back
      as the texts of their pieces. */
  lemma {:induction false} WordsParse(lead: string, words: seq<seq<Item>>, gaps: seq<string>)
    requires words != [] && |gaps| == |words| && AllSpaces(lead) && GapsOk(gaps) && forall w :: w in words ==> IsWord(w)
    ensures Parsed(ShownAll(Between(lead, words, gaps))) == Ok(Contents(words))
  {
    BetweenSays(lead, words, gaps);
    BetweenOk(lead, words, gaps);
    LayoutParses(Layout(Between(lead, words, gaps), None));
  }

  /** Bare words as they are written. */
  function Spaced(lead: string, ws: seq<string>, gaps: seq<string>): string
    requires |gaps| == |ws|
  {
    if ws == [] then lead else Spaced(lead, ws[..|ws| - 1], gaps[..|ws| - 1]) + ws[|ws| - 1] + gaps[|ws| - 1]
  }

  function Bares(ws: seq<string>): seq<seq<Item>> {
    seq(|ws|, i requires 0 <= i < |ws| => [Bare(ws[i])])
  }

  lemma {:induction false} ShownMore(items: seq<Item>, t: string, gap: string)
    ensures ShownAll(items + [Bare(t)] + GapOf(gap)) == ShownAll(items) + t + gap
  {
    OneMoreItem(items, Bare(t));
    if gap == "" {
      assert items + [Bare(t)] + GapOf(gap) == items + [Bare(t)];
    } else {
      OneMoreItem(items + [Bare(t)], Gap(gap));
    }
  }

  lemma {:induction false} SpacedShown(lead: string, ws: seq<string>, gaps: seq<string>)
    requires |gaps| == |ws|
    ensures ShownAll(Between(lead, Bares(ws), gaps)) == Spaced(lead, ws, gaps)
    decreases |ws|
  {
    if ws == [] {
      assert [] + GapOf(lead) == GapOf(lead);
      if lead != "" {
        OneMoreItem([], Gap(lead));
      }
    } else {
      var n := |ws| - 1;
      SpacedShown(lead, ws[..n], gaps[..n]);
      assert Bares(ws)[..n] == Bares(ws[..n]) && Bares(ws)[n] == [Bare(ws[n])];
      ShownMore(Between(lead, Bares(ws[..n]), gaps[..n]), ws[n], gaps[n]);
    }
  }

  lemma {:induction false} BareContent(t: string)
    ensures Content([Bare(t)]) == t
  {
    assert [Bare(t)][..0] == [];
  }

  /** Words without spaces and quotes come back as they are, whatever spaces are between them, before and behind. */
  lemma {:induction false} BareWordsParse(lead: string, ws: seq<string>, gaps: seq<string>)
    requires ws != [] && |gaps| == |ws| && AllSpaces(lead) && GapsOk(gaps)
    requires forall w :: w in ws ==> w != "" && Plain(w)
    ensures Parsed(Spaced(lead, ws, gaps)) == Ok(ws)
  {
    var words := Bares(ws);
    forall w | w in words ensures IsWord(w) {
      var i :| 0 <= i < |words| && words[i] == w;
      assert ws[i] in ws;
      BareContent(ws[i]);
    }
    SpacedShown(lead, ws, gaps);
    WordsParse(lead, words, gaps);
    forall i | 0 <= i < |ws| ensures Contents(words)[i] == ws[i] {
      BareContent(ws[i]);
    }
    assert Contents(words) == ws;
  }

  /** The spaces are the characters with the Unicode property White_Space. */
  lemma {:induction false} SpacesAre(c: char)
    ensures IsSpace(c) <==>
            var n := c as int;
            9 <= n <= 13 || n in {32, 133, 160, 5760, 8232, 8233, 8239, 8287, 12288} || 8192 <= n <= 8202
  {
  }
}
