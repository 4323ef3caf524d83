/** Configuration entries as Redis hashes: lists become comma-separated strings under a name with an "@" behind it. */
module DbEntry {
  import opened Options

  /** `Other` stands for JSON values that are neither strings nor lists. */
  datatype Item = Word(text: string) | NotWord(text: string)
  datatype Value = Str(text: string) | List(items: seq<Item>) | Other(text: string)
  type Entry = map<string, Value>
  type Hash = map<string, string>
  datatype Field = Field(name: string, val: string)
  datatype Member = Member(name: string, val: Value)

  // ----- commas

  predicate CommaFree(s: string) {
    ',' !in s
  }

  function Join(ws: seq<string>): string {
    if ws == [] then "" else if |ws| == 1 then ws[0] else ws[0] + "," + Join(ws[1..])
  }

  function Split(s: string): (ws: seq<string>)
    ensures ws != []
  {
    if s == "" then [""]
    else if s[0] == ',' then [""] + Split(s[1..])
    else var rest := Split(s[1..]); [[s[0]] + rest[0]] + rest[1..]
  }

  lemma {:induction false} SplitParts(s: string)
    ensures forall w :: w in Split(s) ==> CommaFree(w)
  {
    if s != "" {
      SplitParts(s[1..]);
      var rest := Split(s[1..]);
      assert rest[0] in rest;
    }
  }

  lemma {:induction false} SplitWord(w: string)
    requires CommaFree(w)
    ensures Split(w) == [w]
  {
    if w != "" {
      assert CommaFree(w[1..]) && w[0] in w;
      SplitWord(w[1..]);
      assert [w[0]] + w[1..] == w;
    }
  }

  lemma {:induction false} SplitAfter(w: string, s: string)
    requires CommaFree(w)
    ensures Split(w + "," + s) == [w] + Split(s)
  {
    if w == "" {
      assert (w + "," + s)[1..] == s;
    } else {
      assert CommaFree(w[1..]) && w[0] in w;
      assert (w + "," + s)[1..] == w[1..] + "," + s;
      SplitAfter(w[1..], s);
      assert [w[0]] + w[1..] == w;
    }
  }

  lemma {:induction false} SplitJoin(ws: seq<string>)
    requires ws != [] && forall w :: w in ws ==> CommaFree(w)
    ensures Split(Join(ws)) == ws
    decreases |ws|
  {
    if |ws| == 1 {
      SplitWord(ws[0]);
    } else {
      SplitJoin(ws[1..]);
      SplitAfter(ws[0], Join(ws[1..]));
    }
  }

  /** Splitting undoes joining exactly for non-empty lists of words without a comma. */
  lemma {:induction false} SplitJoinIff(ws: seq<string>)
    ensures Split(Join(ws)) == ws <==> ws != [] && forall w :: w in ws ==> CommaFree(w)
  {
    SplitParts(Join(ws));
    if ws != [] && forall w :: w in ws ==> CommaFree(w) {
      SplitJoin(ws);
    }
  }

  // ----- encoding

  function Words(items: seq<Item>): seq<string> {
    if items == [] then []
    else Words(items[..|items| - 1]) + (if items[|items| - 1].Word? then [items[|items| - 1].text] else [])
  }

  /** The texts of the words in order, without the rest. */
  lemma {:induction false} WordsAre(a: seq<Item>, b: seq<Item>, t: string)
    ensures Words(a + b) == Words(a) + Words(b) && Words([Word(t)]) == [t] && Words([NotWord(t)]) == []
    decreases |b|
  {
    assert [Word(t)][..0] == [] && [NotWord(t)][..0] == [];
    if b == [] {
      assert a + b == a;
    } else {
      WordsAre(a, b[..|b| - 1], t);
      assert (a + b)[..|a + b| - 1] == a + b[..|b| - 1];
    }
  }

  /** The Redis field of a member; values that are neither strings nor lists have none. */
  function Encoded(k: string, v: Value): Option<Field> {
    match v
    case Str(s) => Some(Field(k, s))
    case List(items) => Some(Field(k + "@", Join(Words(items))))
    case Other(_) => None
  }

  /** Every field comes from a member and every member that has a field leaves one; of members with the same field
      any one may win. */
  ghost predicate IsEncoding(e: Entry, h: Hash) {
    && (forall f :: f in h ==> exists k :: k in e && Encoded(k, e[k]) == Some(Field(f, h[f])))
    && (forall k :: k in e && Encoded(k, e[k]).Some? ==> Encoded(k, e[k]).value.name in h)
  }

  method ConvertDbEntry(e: Entry) returns (h: Hash)
    ensures IsEncoding(e, h)
  {
    h := map[];
    var todo := e.Keys;
    while todo != {}
      invariant todo <= e.Keys
      invariant forall f :: f in h ==> exists k :: k in e && Encoded(k, e[k]) == Some(Field(f, h[f]))
      invariant forall k :: k in e && k !in todo && Encoded(k, e[k]).Some? ==> Encoded(k, e[k]).value.name in h
    {
      var key :| key in todo;
      todo := todo - {key};
      if e[key].Str? {
        h := h[key := e[key].text];
      } else if e[key].List? {
        var slice := WordsOf(e[key].items);
        h := h[key + "@" := Join(slice)];
      }
    }
  }

  method WordsOf(items: seq<Item>) returns (slice: seq<string>)
    ensures slice == Words(items)
  {
    slice := [];
    for i := 0 to |items|
      invariant slice == Words(items[..i])
    {
      assert items[..i + 1][..i] == items[..i];
      if items[i].Word? {
        slice := slice + [items[i].text];
      }
    }
    assert items[..|items|] == items;
  }

  // ----- decoding

  function Decoded(f: string, v: string): Option<Member> {
    if f == "NULL" then None
    else if f != "" && f[|f| - 1] == '@' then Some(Member(f[..|f| - 1], List(AsItems(Split(v)))))
    else Some(Member(f, Str(v)))
  }

  function AsItems(ws: seq<string>): seq<Item> {
    seq(|ws|, i requires 0 <= i < |ws| => Word(ws[i]))
  }

  ghost predicate IsDecoding(h: Hash, e: Entry) {
    && (forall k :: k in e ==> exists f :: f in h && Decoded(f, h[f]) == Some(Member(k, e[k])))
    && (forall f :: f in h && Decoded(f, h[f]).Some? ==> Decoded(f, h[f]).value.name in e)
  }

  method MakeJson(h: Hash) returns (e: Entry)
    ensures IsDecoding(h, e)
  {
    e := map[];
    var todo := h.Keys;
    while todo != {}
      invariant todo <= h.Keys
      invariant forall k :: k in e ==> exists f :: f in h && Decoded(f, h[f]) == Some(Member(k, e[k]))
      invariant forall f :: f in h && f !in todo && Decoded(f, h[f]).Some? ==> Decoded(f, h[f]).value.name in e
    {
      var f :| f in todo;
      todo := todo - {f};
      if f == "NULL" {
      } else if f != "" && f[|f| - 1] == '@' {
        e := e[f[..|f| - 1] := List(AsItems(Split(h[f])))];
      } else {
        e := e[f := Str(h[f])];
      }
    }
  }

  // ----- the round trip

  predicate Survives(k: string, v: Value) {
    match v
    case Str(_) => k != "NULL" && !(k != "" && k[|k| - 1] == '@')
    case List(items) => items != [] && forall i :: i in items ==> i.Word? && CommaFree(i.text)
    case Other(_) => false
  }

  predicate AllSurvive(e: Entry) {
    forall k :: k in e ==> Survives(k, e[k])
  }

  lemma {:induction false} WordsAll(items: seq<Item>)
    requires forall i :: i in items ==> i.Word?
    ensures AsItems(Words(items)) == items && |Words(items)| == |items|
    ensures forall j :: 0 <= j < |items| ==> Words(items)[j] == items[j].text
    decreases |items|
  {
    if items != [] {
      assert items[|items| - 1] in items;
      WordsAll(items[..|items| - 1]);
    }
  }

  /** What a list comes back as, and when that is the list itself. */
  lemma {:induction false} ListBackIff(items: seq<Item>)
    ensures AsItems(Split(Join(Words(items)))) == items <==> Survives("", List(items))
  {
    var ws := Words(items);
    var back := AsItems(Split(Join(ws)));
    if Survives("", List(items)) {
      WordsAll(items);
      forall w | w in ws ensures CommaFree(w) {
        var j :| 0 <= j < |ws| && ws[j] == w;
        assert items[j] in items;
      }
      SplitJoin(ws);
    }
    if back == items {
      SplitParts(Join(ws));
      forall i | i in items ensures i.Word? && CommaFree(i.text) {
        var j :| 0 <= j < |back| && back[j] == i;
        assert Split(Join(ws))[j] in Split(Join(ws));
      }
    }
  }

  lemma {:induction false} FieldBack(k: string, v: Value)
    requires Survives(k, v)
    ensures Encoded(k, v).Some? && Decoded(Encoded(k, v).value.name, Encoded(k, v).value.val) == Some(Member(k, v))
  {
    if v.List? {
      ListBackIff(v.items);
      assert (k + "@")[..|k + "@"| - 1] == k;
      assert (k + "@")[|k|] == '@';
    }
  }

  lemma {:induction false} MemberBack(e: Entry, h: Hash, back: Entry, k: string)
    requires IsEncoding(e, h) && IsDecoding(h, back) && AllSurvive(e) && k in e
    ensures k in back
  {
    FieldBack(k, e[k]);
    var f := Encoded(k, e[k]).value.name;
    var l :| l in e && Encoded(l, e[l]) == Some(Field(f, h[f]));
    FieldBack(l, e[l]);
  }

  lemma {:induction false} BackMember(e: Entry, h: Hash, back: Entry, k: string)
    requires IsEncoding(e, h) && IsDecoding(h, back) && AllSurvive(e) && k in back
    ensures k in e && back[k] == e[k]
  {
    var f :| f in h && Decoded(f, h[f]) == Some(Member(k, back[k]));
    var l :| l in e && Encoded(l, e[l]) == Some(Field(f, h[f]));
    FieldBack(l, e[l]);
  }

  lemma {:induction false} OnlySurvivors(h: Hash, e: Entry)
    requires IsDecoding(h, e)
    ensures AllSurvive(e)
  {
    forall k | k in e ensures Survives(k, e[k]) {
      var f :| f in h && Decoded(f, h[f]) == Some(Member(k, e[k]));
      DecodedSurvives(f, h[f], k, e[k]);
    }
  }

  predicate Agree(a: Entry, b: Entry, k: string) {
    (k in a <==> k in b) && (k in a && k in b ==> a[k] == b[k])
  }

  /** A name that decides whether two entries are the same. */
  lemma {:induction false} SameMembers(a: Entry, b: Entry) returns (k: string)
    ensures Agree(a, b, k) ==> a == b
  {
    if forall x :: Agree(a, b, x) {
      assert forall x :: x in a ==> Agree(a, b, x);
      assert forall x :: x in b ==> Agree(a, b, x);
      k := "";
    } else {
      k :| !Agree(a, b, k);
    }
  }

  lemma {:induction false} SurvivorsReturn(e: Entry, h: Hash, back: Entry)
    requires IsEncoding(e, h) && IsDecoding(h, back) && AllSurvive(e)
    ensures back == e
  {
    var k := SameMembers(back, e);
    if k in back {
      BackMember(e, h, back, k);
    } else if k in e {
      MemberBack(e, h, back, k);
    }
  }

  /** MAIN RESULT. Whatever order the two conversions go through the fields in, an entry comes back as it was exactly
      when its members are strings whose names are not "NULL" and do not end in "@", and non-empty lists of strings
      without a comma. */
  lemma {:induction false} RoundTripIff(e: Entry, h: Hash, back: Entry)
    requires IsEncoding(e, h) && IsDecoding(h, back)
    ensures back == e <==> AllSurvive(e)
  {
    OnlySurvivors(h, back);
    if AllSurvive(e) {
      SurvivorsReturn(e, h, back);
    }
  }

  lemma {:induction false} DecodedSurvives(f: string, v: string, k: string, val: Value)
    requires Decoded(f, v) == Some(Member(k, val))
    ensures Survives(k, val)
  {
    if val.List? {
      SplitParts(v);
      forall i | i in val.items ensures i.Word? && CommaFree(i.text) {
        var j :| 0 <= j < |val.items| && val.items[j] == i;
        assert Split(v)[j] in Split(v);
      }
    }
  }

  // ----- the bypass encoder

  /** The bypass prints every value. */
  function Printed(v: Value): string {
    match v
    case Str(s) => s
    case Other(s) => s
    case List(items) => Join(Texts(items))
  }

  function Texts(items: seq<Item>): seq<string> {
    seq(|items|, i requires 0 <= i < |items| => items[i].text)
  }

  function BypassEncoded(k: string, v: Value): Field {
    Field(if v.List? then k + "@" else k, Printed(v))
  }

  ghost predicate IsBypassEncoding(e: Entry, h: Hash) {
    && (forall f :: f in h ==> exists k :: k in e && BypassEncoded(k, e[k]) == Field(f, h[f]))
    && (forall k :: k in e ==> BypassEncoded(k, e[k]).name in h)
  }

  method ConvertToRedisFields(e: Entry) returns (h: Hash)
    ensures IsBypassEncoding(e, h)
  {
    h := map[];
    var todo := e.Keys;
    while todo != {}
      invariant todo <= e.Keys
      invariant forall f :: f in h ==> exists k :: k in e && BypassEncoded(k, e[k]) == Field(f, h[f])
      invariant forall k :: k in e && k !in todo ==> BypassEncoded(k, e[k]).name in h
    {
      var k :| k in todo;
      todo := todo - {k};
      if e[k].List? {
        var strVals := TextsOf(e[k].items);
        h := h[k + "@" := Join(strVals)];
      } else {
        h := h[k := e[k].text];
      }
    }
  }

  method TextsOf(items: seq<Item>) returns (ts: seq<string>)
    ensures ts == Texts(items)
  {
    ts := [];
    for i := 0 to |items|
      invariant ts == Texts(items[..i])
    {
      ts := ts + [items[i].text];
    }
    assert items[..|items|] == items;
  }

  /** Strings and lists of strings only. */
  predicate Plain(e: Entry) {
    forall k :: k in e ==> PlainValue(e[k])
  }

  predicate PlainValue(v: Value) {
    v.Str? || (v.List? && forall i :: i in v.items ==> i.Word?)
  }

  lemma {:induction false} PlainSame(k: string, v: Value)
    requires PlainValue(v)
    ensures Encoded(k, v) == Some(BypassEncoded(k, v))
  {
    if v.List? {
      WordsAll(v.items);
      assert Texts(v.items) == Words(v.items);
    }
  }

  /** On strings and lists of strings the bypass encoder leaves the fields that the other encoder leaves. */
  lemma {:induction false} BypassAgrees(e: Entry, h: Hash)
    requires Plain(e)
    ensures IsBypassEncoding(e, h) <==> IsEncoding(e, h)
  {
    forall k | k in e ensures Encoded(k, e[k]) == Some(BypassEncoded(k, e[k])) {
      PlainSame(k, e[k]);
    }
    if IsBypassEncoding(e, h) {
      forall f | f in h ensures exists k :: k in e && Encoded(k, e[k]) == Some(Field(f, h[f])) {
        var k :| k in e && BypassEncoded(k, e[k]) == Field(f, h[f]);
        assert Encoded(k, e[k]) == Some(Field(f, h[f]));
      }
    }
    if IsEncoding(e, h) {
      forall f | f in h ensures exists k :: k in e && BypassEncoded(k, e[k]) == Field(f, h[f]) {
        var k :| k in e && Encoded(k, e[k]) == Some(Field(f, h[f]));
        assert BypassEncoded(k, e[k]) == Field(f, h[f]);
      }
    }
  }

  /** What the bypass writes: an entry without fields gets a placeholder. */
  function Stored(h: Hash): Hash {
    if h == map[] then map["NULL" := "NULL"] else h
  }

  /** MAIN RESULT. Through the bypass and back, with its placeholder for an entry without fields, the same entries
      come back as they were, the empty one among them. */
  lemma {:induction false} BypassRoundTrip(e: Entry, h: Hash, back: Entry)
    requires IsBypassEncoding(e, h) && IsDecoding(Stored(h), back)
    ensures back == e <==> AllSurvive(e)
  {
    OnlySurvivors(Stored(h), back);
    if AllSurvive(e) {
      BypassAgrees(e, h);
      if h == map[] {
        assert forall k :: k !in e;
        assert forall k :: k !in back;
      } else {
        RoundTripIff(e, h, back);
      }
    }
  }
}
