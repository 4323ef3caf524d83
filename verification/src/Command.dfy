/** Splitting a command line into words, with quotes. */
module Command {
  datatype Result = Ok(words: seq<string>) | Empty | Unclosed

  predicate IsSpace(c: char) {
    || c in {'\t', '\n', '\U{0B}', '\U{0C}', '\r', ' ', '\U{85}', '\U{A0}', '\U{1680}'}
    || c in {'\U{2028}', '\U{2029}', '\U{202F}', '\U{205F}', '\U{3000}'}
    || '\U{2000}' <= c <= '\U{200A}'
  }

  predicate IsQuote(c: char) {
    c == '"' || c == '\''
  }

  function TrimSpace(s: string): string
    decreases |s|
  {
    if s == "" then s
    else if IsSpace(s[0]) then TrimSpace(s[1..])
    else if IsSpace(s[|s| - 1]) then TrimSpace(s[..|s| - 1])
    else s
  }

  // ----- the state machine

  datatype State = State(parts: seq<string>, current: string, inQuote: bool, quote: char)

  const START := State([], "", false, ' ')

  function Step(st: State, escaped: bool, c: char): State {
    if !st.inQuote && IsQuote(c) then st.(inQuote := true, quote := c)
    else if st.inQuote && c == st.quote then
      if escaped then st.(current := st.current + [c]) else st.(inQuote := false)
    else if !st.inQuote && IsSpace(c) then
      if st.current == "" then st else st.(parts := st.parts + [st.current], current := "")
    else st.(current := st.current + [c])
  }

  predicate EscapedAt(s: string, i: nat)
    requires i < |s|
  {
    i > 0 && s[i - 1] == '\\'
  }

  /** The state after the first `n` characters. */
  function Run(s: string, n: nat): State
    requires n <= |s|
  {
    if n == 0 then START else Step(Run(s, n - 1), EscapedAt(s, n - 1), s[n - 1])
  }

  function Finish(st: State): Result {
    var parts := if st.current == "" then st.parts else st.parts + [st.current];
    if st.inQuote then Unclosed else if parts == [] then Empty else Ok(parts)
  }

  function Parsed(cmd: string): Result {
    var s := TrimSpace(cmd);
    if s == "" then Empty else Finish(Run(s, |s|))
  }

  method ParseCommand(cmd: string) returns (r: Result)
    ensures r == Parsed(cmd)
  {
    var s := TrimSpace(cmd);
    if s == "" {
      return Empty;
    }
    var parts, current, inQuote, quote := [], "", false, ' ';
    for i := 0 to |s|
      invariant State(parts, current, inQuote, quote) == Run(s, i)
    {
      var c := s[i];
      if !inQuote && (c == '"' || c == '\'') {
        inQuote, quote := true, c;
      } else if inQuote && c == quote {
        if i > 0 && s[i - 1] == '\\' {
          current := current + [c];
        } else {
          inQuote := false;
        }
      } else if !inQuote && IsSpace(c) {
        if |current| > 0 {
          parts, current := parts + [current], "";
        }
      } else {
        current := current + [c];
      }
    }
    if |current| > 0 {
      parts := parts + [current];
    }
    if inQuote {
      return Unclosed;
    }
    if |parts| == 0 {
      return Empty;
    }
    return Ok(parts);
  }

  // ----- quoted words

  function Quoted(w: string): string {
    "\"" + w + "\""
  }

  function Line(ws: seq<string>): string {
    if ws == [] then "" else if |ws| == 1 then Quoted(ws[0]) else Line(ws[..|ws| - 1]) + " " + Quoted(ws[|ws| - 1])
  }

  /** Words that quoting keeps: not empty, not ending in a backslash, every double quote behind a backslash. */
  predicate Safe(w: string) {
    w != "" && w[|w| - 1] != '\\' && forall i :: 0 <= i < |w| && w[i] == '"' ==> EscapedAt(w, i)
  }

  lemma {:induction false} RunPrefix(s: string, t: string, n: nat)
    requires n <= |s|
    ensures Run(s + t, n) == Run(s, n)
  {
    if n > 0 {
      RunPrefix(s, t, n - 1);
    }
  }

  /** The first double quote that is not escaped, if any, is at `j`. */
  predicate FirstOpen(w: string, j: nat) {
    && j <= |w| && (j < |w| ==> w[j] == '"' && !EscapedAt(w, j))
    && forall i :: 0 <= i < j && w[i] == '"' ==> EscapedAt(w, i)
  }

  /** Inside the quotes every character is kept up to there. */
  lemma {:induction false} UpToOpen(s: string, w: string, j: nat, n: nat, parts: seq<string>)
    requires FirstOpen(w, j) && n <= j && Run(s, |s|) == State(parts, "", false, Run(s, |s|).quote)
    ensures Run(s + Quoted(w), |s| + 1 + n) == State(parts, w[..n], true, '"')
  {
    var t := s + Quoted(w);
    if n == 0 {
      RunPrefix(s, Quoted(w), |s|);
      assert t[|s|] == '"';
      assert Run(t, |s| + 1) == Step(Run(t, |s|), EscapedAt(t, |s|), '"');
    } else {
      UpToOpen(s, w, j, n - 1, parts);
      assert t[|s| + n] == w[n - 1] && t[|s| + n - 1] == if n > 1 then w[n - 2] else '"';
      assert w[..n] == w[..n - 1] + [w[n - 1]];
      assert Run(t, |s| + 1 + n) == Step(Run(t, |s| + n), EscapedAt(t, |s| + n), t[|s| + n]);
    }
  }

  /** The step at the first quote that is not escaped, or at the last quote of the word. */
  lemma {:induction false} StepAtOpen(s: string, w: string, j: nat, parts: seq<string>)
    requires FirstOpen(w, j) && Run(s, |s|) == State(parts, "", false, Run(s, |s|).quote)
    ensures var t := s + Quoted(w);
            Run(t, |s| + j + 2) == Step(State(parts, w[..j], true, '"'), j > 0 && w[j - 1] == '\\', '"')
  {
    var t := s + Quoted(w);
    UpToOpen(s, w, j, j, parts);
    var at := |s| + 1 + j;
    assert t[at] == '"' && t[at - 1] == if j > 0 then w[j - 1] else '"';
    assert Run(t, at + 1) == Step(Run(t, at), EscapedAt(t, at), '"');
  }

  lemma {:induction false} QuotedWord(s: string, w: string, parts: seq<string>)
    requires Safe(w) && Run(s, |s|) == State(parts, "", false, Run(s, |s|).quote)
    ensures var t := s + Quoted(w); Run(t, |t|) == State(parts, w, false, '"')
  {
    StepAtOpen(s, w, |w|, parts);
    assert w[..|w|] == w;
  }

  predicate AllSafe(ws: seq<string>) {
    forall w :: w in ws ==> Safe(w)
  }

  lemma {:induction false} LineRuns(ws: seq<string>)
    requires ws != [] && AllSafe(ws)
    ensures var s := Line(ws);
            Run(s, |s|) == State(ws[..|ws| - 1], ws[|ws| - 1], false, '"')
    ensures |Line(ws)| > 0 && Line(ws)[0] == '"' && Line(ws)[|Line(ws)| - 1] == '"'
    decreases |ws|, 0
  {
    var w := ws[|ws| - 1];
    assert w in ws;
    if |ws| == 1 {
      QuotedWord("", w, []);
      assert "" + Quoted(w) == Line(ws);
    } else {
      var before := ws[..|ws| - 1];
      AfterGap(before);
      var gap := Line(before) + " ";
      QuotedWord(gap, w, before);
      assert gap + Quoted(w) == Line(ws);
      assert Line(ws)[0] == Line(before)[0];
    }
  }

  lemma {:induction false} AfterGap(ws: seq<string>)
    requires ws != [] && AllSafe(ws)
    ensures var s := Line(ws) + " "; Run(s, |s|) == State(ws, "", false, '"')
    ensures |Line(ws)| > 0 && Line(ws)[0] == '"'
    decreases |ws|, 1
  {
    LineRuns(ws);
    var s := Line(ws);
    RunPrefix(s, " ", |s|);
    assert Safe(ws[|ws| - 1]) by { assert ws[|ws| - 1] in ws; }
    assert Run(s + " ", |s| + 1) == Step(Run(s + " ", |s|), EscapedAt(s + " ", |s|), ' ');
    assert ws[..|ws| - 1] + [ws[|ws| - 1]] == ws;
  }

  /** MAIN RESULT. Safe words, quoted and joined by spaces, come back as they were, whatever spaces, single quotes and
      escaped double quotes they contain. */
  lemma {:induction false} LineParses(ws: seq<string>)
    requires ws != [] && AllSafe(ws)
    ensures Parsed(Line(ws)) == Ok(ws)
  {
    LineRuns(ws);
    assert TrimSpace(Line(ws)) == Line(ws);
    assert ws[|ws| - 1] in ws;
    assert ws == ws[..|ws| - 1] + [ws[|ws| - 1]];
  }

  // ----- only safe words come back

  /** The room the words take, with one place after each. */
  function Filled(ws: seq<string>): nat {
    if ws == [] then 0 else Filled(ws[..|ws| - 1]) + |ws[|ws| - 1]| + 1
  }

  function Place(st: State): nat {
    Filled(st.parts) + |st.current|
  }

  /** What was parsed so far is where the words begin. */
  predicate OnTrack(ws: seq<string>, st: State) {
    && |st.parts| <= |ws| && st.parts == ws[..|st.parts|]
    && if |st.parts| == |ws| then st.current == "" else st.current <= ws[|st.parts|]
  }

  /** The words can no longer come back, or fewer places are filled than there should be. */
  predicate Lost(ws: seq<string>, st: State, place: nat) {
    !OnTrack(ws, st) || Place(st) < place
  }

  /** As after the last quote of a word when an unsafe word was read. */
  predicate Unfinished(ws: seq<string>, st: State, place: nat) {
    Lost(ws, st, place) || (Place(st) == place && st.inQuote)
  }

  lemma {:induction false} FilledGrows(ws: seq<string>, m: nat, n: nat)
    requires m <= n <= |ws|
    ensures Filled(ws[..m]) <= Filled(ws[..n])
    decreases n
  {
    if m < n {
      FilledGrows(ws, m, n - 1);
      FilledOne(ws, n - 1);
    }
  }

  lemma {:induction false} FilledOne(ws: seq<string>, n: nat)
    requires n < |ws|
    ensures Filled(ws[..n + 1]) == Filled(ws[..n]) + |ws[n]| + 1
  {
    assert ws[..n + 1][..n] == ws[..n];
  }

  /** Where a word starts, none of it has been read. */
  lemma {:induction false} AtStart(ws: seq<string>, st: State, m: nat)
    requires m <= |ws| && OnTrack(ws, st) && Place(st) == Filled(ws[..m])
    ensures st.current == ""
  {
    var a := |st.parts|;
    if a < m {
      FilledOne(ws, a);
      FilledGrows(ws, a + 1, m);
    } else {
      FilledGrows(ws, m, a);
    }
  }

  lemma {:induction false} StepPlace(st: State, escaped: bool, c: char)
    ensures Place(Step(st, escaped, c)) <= Place(st) + 1
  {
    var more := st.parts + [st.current];
    assert more[..|more| - 1] == st.parts;
  }

  lemma {:induction false} StepTrack(ws: seq<string>, st: State, escaped: bool, c: char)
    requires OnTrack(ws, Step(st, escaped, c))
    ensures OnTrack(ws, st)
  {
    var st' := Step(st, escaped, c);
    if |st'.parts| > |st.parts| {
      assert st'.parts[..|st.parts|] == st.parts && st'.parts[|st.parts|] == st.current;
    }
  }

  lemma {:induction false} StepLost(ws: seq<string>, st: State, escaped: bool, c: char, place: nat)
    requires Lost(ws, st, place)
    ensures Lost(ws, Step(st, escaped, c), place + 1)
  {
    StepPlace(st, escaped, c);
    if OnTrack(ws, Step(st, escaped, c)) {
      StepTrack(ws, st, escaped, c);
    }
  }

  /** What was lost stays lost. */
  lemma {:induction false} RunLost(ws: seq<string>, s: string, i: nat, j: nat, place: nat)
    requires i <= j <= |s| && Lost(ws, Run(s, i), place)
    ensures Lost(ws, Run(s, j), place + j - i)
    decreases j
  {
    if i < j {
      RunLost(ws, s, i, j - 1, place);
      StepLost(ws, Run(s, j - 1), EscapedAt(s, j - 1), s[j - 1], place + j - 1 - i);
    }
  }

  lemma {:induction false} QuoteKnown(s: string, n: nat)
    requires n <= |s| && Run(s, n).inQuote
    ensures IsQuote(Run(s, n).quote)
  {
    if Run(s, n - 1).inQuote {
      QuoteKnown(s, n - 1);
    }
  }

  /** The space between two words does not help: outside of quotes it is not kept, inside it is in the way. */
  lemma {:induction false} GapLost(ws: seq<string>, s: string, m: nat)
    requires m < |ws| && Unfinished(ws, Run(s, |s|), Filled(ws[..m]) + |ws[m]|)
    ensures Lost(ws, Run(s + " ", |s| + 1), Filled(ws[..m + 1]))
  {
    var st := Run(s, |s|);
    RunPrefix(s, " ", |s|);
    var escaped := EscapedAt(s + " ", |s|);
    var st' := Step(st, escaped, ' ');
    FilledOne(ws, m);
    if Lost(ws, st, Filled(ws[..m]) + |ws[m]|) {
      StepLost(ws, st, escaped, ' ', Filled(ws[..m]) + |ws[m]|);
    } else {
      QuoteKnown(s, |s|);
      assert st'.current == st.current + " ";
      if OnTrack(ws, st') {
        AtStart(ws, st', m + 1);
      }
    }
  }

  /** A quote that opens a word is kept only inside other quotes, where it is in the way. */
  lemma {:induction false} OpenLost(ws: seq<string>, st: State, m: nat)
    requires m < |ws| && Lost(ws, st, Filled(ws[..m]))
    ensures Lost(ws, Step(st, false, '"'), Filled(ws[..m]))
  {
    var st' := Step(st, false, '"');
    StepPlace(st, false, '"');
    if OnTrack(ws, st') {
      StepTrack(ws, st, false, '"');
      if Place(st') == Filled(ws[..m]) {
        AtStart(ws, st', m);
      }
    }
  }

  /** A quote that closes a word is kept only inside quotes, and they stay open. */
  lemma {:induction false} CloseLost(ws: seq<string>, st: State, escaped: bool, place: nat)
    requires Lost(ws, st, place)
    ensures Unfinished(ws, Step(st, escaped, '"'), place)
  {
    StepPlace(st, escaped, '"');
    if OnTrack(ws, Step(st, escaped, '"')) {
      StepTrack(ws, st, escaped, '"');
    }
  }

  /** The rest of a quoted word, from a position where something is missing. */
  lemma {:induction false} RestLost(ws: seq<string>, s: string, w: string, i: nat, place: nat)
    requires var t := s + Quoted(w); |s| < i < |t| && Lost(ws, Run(t, i), place + (i - |s| - 1))
    ensures var t := s + Quoted(w); Unfinished(ws, Run(t, |t|), place + |w|)
  {
    var t := s + Quoted(w);
    var n := |t| - 1;
    RunLost(ws, t, i, n, place + (i - |s| - 1));
    assert t[n] == '"';
    CloseLost(ws, Run(t, n), EscapedAt(t, n), place + |w|);
  }

  lemma {:induction false} LaterWord(ws: seq<string>, s: string, m: nat)
    requires m < |ws| && s != "" && s[|s| - 1] == ' ' && Lost(ws, Run(s, |s|), Filled(ws[..m]))
    ensures var t := s + Quoted(ws[m]); Unfinished(ws, Run(t, |t|), Filled(ws[..m]) + |ws[m]|)
  {
    var t := s + Quoted(ws[m]);
    RunPrefix(s, Quoted(ws[m]), |s|);
    assert t[|s|] == '"' && t[|s| - 1] == ' ';
    OpenLost(ws, Run(s, |s|), m);
    assert Run(t, |s| + 1) == Step(Run(t, |s|), false, '"');
    RestLost(ws, s, ws[m], |s| + 1, Filled(ws[..m]));
  }

  lemma {:induction false} FindOpen(w: string, from: nat) returns (j: nat)
    requires from <= |w| && forall i :: 0 <= i < from && w[i] == '"' ==> EscapedAt(w, i)
    ensures FirstOpen(w, j)
    decreases |w| - from
  {
    j := from;
    if from < |w| && !(w[from] == '"' && !EscapedAt(w, from)) {
      j := FindOpen(w, from + 1);
    }
  }

  /** The first unsafe word: its quotes close too early, or its last quote is kept. */
  lemma {:induction false} UnsafeWord(ws: seq<string>, s: string, m: nat)
    requires m < |ws| && ws[m] != "" && !Safe(ws[m])
    requires Run(s, |s|) == State(ws[..m], "", false, Run(s, |s|).quote)
    ensures var t := s + Quoted(ws[m]); Unfinished(ws, Run(t, |t|), Filled(ws[..m]) + |ws[m]|)
  {
    var w := ws[m];
    var j := FindOpen(w, 0);
    StepAtOpen(s, w, j, ws[..m]);
    if j < |w| {
      RestLost(ws, s, w, |s| + j + 2, Filled(ws[..m]));
    }
  }

  /** Once an unsafe word was read, the line read so far is not what it should be. */
  lemma {:induction false} LineLost(ws: seq<string>, n: nat)
    requires 0 < n <= |ws| && "" !in ws && !AllSafe(ws[..n])
    ensures var s := Line(ws[..n]); Unfinished(ws, Run(s, |s|), Filled(ws[..n - 1]) + |ws[n - 1]|)
    decreases n
  {
    var m := n - 1;
    assert ws[..n][..m] == ws[..m];
    if m == 0 {
      UnsafeWord(ws, "", 0);
      assert "" + Quoted(ws[0]) == Line(ws[..n]);
    } else {
      var s := Line(ws[..m]);
      var gap := s + " ";
      assert gap + Quoted(ws[m]) == Line(ws[..n]);
      if AllSafe(ws[..m]) {
        AfterGap(ws[..m]);
        assert !Safe(ws[m]);
        UnsafeWord(ws, gap, m);
      } else {
        LineLost(ws, m);
        GapLost(ws, s, m - 1);
        LaterWord(ws, gap, m);
      }
    }
  }

  lemma {:induction false} NoEmptyParts(s: string, n: nat)
    requires n <= |s|
    ensures "" !in Run(s, n).parts
  {
    if n > 0 {
      NoEmptyParts(s, n - 1);
    }
  }

  lemma {:induction false} LineEnds(ws: seq<string>)
    requires ws != []
    ensures |Line(ws)| > 0 && Line(ws)[0] == '"' && Line(ws)[|Line(ws)| - 1] == '"'
    decreases |ws|
  {
    if |ws| > 1 {
      LineEnds(ws[..|ws| - 1]);
    }
  }

  lemma {:induction false} FinishFills(ws: seq<string>, st: State)
    requires ws != [] && Unfinished(ws, st, Filled(ws[..|ws| - 1]) + |ws[|ws| - 1]|)
    ensures Finish(st) != Ok(ws)
  {
    var m := |ws| - 1;
    assert ws[..|ws|] == ws;
    assert st.parts + [st.current] == ws ==> ws[..m] == st.parts && ws[m] == st.current;
  }

  lemma {:induction false} UnsafeDiffers(ws: seq<string>)
    requires ws != [] && !AllSafe(ws)
    ensures Parsed(Line(ws)) != Ok(ws)
  {
    var s := Line(ws);
    LineEnds(ws);
    assert TrimSpace(s) == s;
    NoEmptyParts(s, |s|);
    if "" !in ws {
      assert ws[..|ws|] == ws;
      LineLost(ws, |ws|);
      FinishFills(ws, Run(s, |s|));
    }
  }

  /** MAIN RESULT. Words quoted and joined by spaces come back as they were exactly when each of them is safe:
      no unsafe word is made up for by another. */
  lemma {:induction false} LineIff(ws: seq<string>)
    requires ws != []
    ensures Parsed(Line(ws)) == Ok(ws) <==> AllSafe(ws)
  {
    if AllSafe(ws) {
      LineParses(ws);
    } else {
      UnsafeDiffers(ws);
    }
  }

  /** A quoted word comes back as it was exactly when it is safe. */
  lemma {:induction false} QuotedIff(w: string)
    ensures Parsed(Quoted(w)) == Ok([w]) <==> Safe(w)
  {
    LineIff([w]);
    assert Line([w]) == Quoted(w);
    assert w in [w];
  }
}
