/** The JSON configuration store, edited in place by paths of table, key, field and list index. */
module JsonClient {
  import opened Options
  import opened JsonConfig
  import opened JsonLists
  import JsonPointer
  import opened ListIndex

  // ----- names and indexes

  /** "~1" stands for "/" in the key of a path. */
  function FixPath(path: seq<string>): seq<string> {
    if |path| >= 2 then path[1 := JsonPointer.ReplaceAll(path[1], '~', '1', '/')] else path
  }

  /** A path that was fixed once stays as it is. */
  lemma {:induction false} FixPathTwice(path: seq<string>)
    ensures FixPath(FixPath(path)) == FixPath(path)
  {
    if |path| >= 2 {
      JsonPointer.ReplaceTwice(path[1], '~', '1', '/');
    }
  }

  /** Only the key changes: one with each "/" written as "~1" becomes what it was written for, unless that contains
      the pair "~1" itself. */
  lemma {:induction false} FixPathKeyIff(path: seq<string>, k: string)
    requires |path| >= 2
    ensures FixPath(path[1 := JsonPointer.Slashed(k)]) == path[1 := k] <==> !JsonPointer.HasPair(k)
  {
    JsonPointer.ReplaceSlashed(k);
    JsonPointer.ReplaceNothingIff(k);
    assert path[1 := JsonPointer.Slashed(k)][1 := k] == path[1 := k];
    assert path[1 := k][1] == k;
  }

  lemma {:induction false} FixPathElsewhere(path: seq<string>)
    ensures |FixPath(path)| == |path| && (|path| < 2 ==> FixPath(path) == path)
    ensures forall i :: 0 <= i < |path| && i != 1 ==> FixPath(path)[i] == path[i]
  {
  }

  /** A key with a plain "/" is fixed before and behind it. */
  lemma {:induction false} FixPathAround(path: seq<string>, a: string, b: string)
    requires |path| >= 2
    ensures FixPath(path[1 := a + (['/'] + b)])[1] == FixPath(path[1 := a])[1] + (['/'] + FixPath(path[1 := b])[1])
  {
    JsonPointer.ReplaceAround(a, b);
  }

  // ----- what each call accepts

  /** A position of a list that an item can be put at. */
  predicate Insertable(f: Fields, p: seq<string>)
    requires |p| == 4
  {
    && Atoi(p[3]).Some? && 0 <= Atoi(p[3]).value <= |ListAt(f, p[..3])|
    && !(Lookup(f, p[..3]).Some? && Lookup(f, p[..3]).value.Str?)
  }

  predicate Addable(f: Fields, p: seq<string>, v: Option<Json>) {
    match |p|
    case 1 => v.Some? && v.value.Obj?
    case 2 => v.Some? && v.value.Obj?
    case 3 => v.Some? && (v.value.Str? || v.value.List?)
    case 4 => v.Some? && Insertable(f, p)
    case _ => false
  }

  predicate Removable(f: Fields, p: seq<string>) {
    match |p|
    case 1 => Lookup(f, p).Some? && Lookup(f, p).value.Obj?
    case 2 => Lookup(f, p).Some? && Lookup(f, p).value.Obj?
    case 3 => Lookup(f, p).Some? && (Lookup(f, p).value.Str? || Lookup(f, p).value.List?)
    case 4 =>
      && Atoi(p[3]).Some? && 0 <= Atoi(p[3]).value < |ListAt(f, p[..3])|
      && ListAt(f, p[..3])[Atoi(p[3]).value].Str?
    case _ => false
  }

  function Added(f: Fields, p: seq<string>, v: Json): Fields
    requires Addable(f, p, Some(v))
  {
    if |p| == 4 then PutItem(f, p[..3], Atoi(p[3]).value, v) else Put(f, p, v)
  }

  function Removed(f: Fields, p: seq<string>): Fields
    requires Removable(f, p)
  {
    if |p| == 4 then CutItem(f, p[..3], Atoi(p[3]).value) else Cut(f, p)
  }

  // ----- reading one level

  function DecodeObject(f: Fields, name: string): Option<Fields> {
    if name in f && f[name].Obj? then Some(f[name].fields) else None
  }

  function DecodeField(f: Fields, name: string): Option<Json> {
    if name in f && (f[name].Str? || f[name].List?) then Some(f[name]) else None
  }

  /** The part of a path that leads to objects and fields. */
  function Names(p: seq<string>): seq<string> {
    if |p| == 4 then p[..3] else p
  }

  lemma {:induction false} OneLevel(f: Fields, p: seq<string>, v: Json)
    requires |p| >= 2
    ensures Lookup(f, p) == if DecodeObject(f, p[0]).Some? then Lookup(DecodeObject(f, p[0]).value, p[1..]) else None
    ensures Put(f, p, v) == f[p[0] := Obj(Put(Child(f, p[0]), p[1..], v))]
  {
  }

  lemma {:induction false} CutLevel(f: Fields, p: seq<string>)
    requires |p| >= 2
    ensures var child := Cut(Child(f, p[0]), p[1..]);
            Cut(f, p) == if child == map[] then f - {p[0]} else f[p[0] := Obj(child)]
  {
  }

  lemma {:induction false} WayThenPut(f: Fields, p: seq<string>, v: Json)
    requires |p| > 0
    ensures Put(WithWay(f, p[..|p| - 1]), p, v) == Put(f, p, v)
    decreases |p|
  {
    var g := WithWay(f, p[..|p| - 1]);
    if |p| > 1 {
      assert p[..|p| - 1][1..] == p[1..][..|p| - 2];
      WayThenPut(Child(f, p[0]), p[1..], v);
      assert Put(g, p, v) == g[p[0] := Obj(Put(Child(g, p[0]), p[1..], v))];
    }
  }

  lemma {:induction false} OtherTables(f: Fields, p: seq<string>, v: Json)
    requires p != []
    ensures Put(f, p, v) - {p[0]} == f - {p[0]}
  {
  }

  lemma {:induction false} Inserts(f: Fields, q: seq<string>, l: seq<Json>, id: nat, v: Json)
    requires q != [] && id <= |l|
    ensures var g := Put(Put(f, q, List(Opened(l, id))), q, List(Opened(l, id)[id := v]));
            g == Put(f, q, List(Inserted(l, id, v))) && g - {q[0]} == f - {q[0]}
  {
    OpenedSet(l, id, v);
    PutTwice(f, q, List(Opened(l, id)), List(Inserted(l, id, v)));
    OtherTables(f, q, List(Inserted(l, id, v)));
  }

  /** Only objects on the way to a field, or an empty list there, were made. */
  predicate Reached(f: Fields, g: Fields, x: Field) {
    g == WithWay(f, x.Path()[..2]) || g == Put(f, x.Path(), List([]))
  }

  lemma {:induction false} ReachedSame(f: Fields, g: Fields, x: Field, v: Json)
    requires Reached(f, g, x)
    ensures Put(g, x.Path(), v) == Put(f, x.Path(), v) && g - {x.table} == f - {x.table}
  {
    WayThenPut(f, x.Path(), v);
    PutTwice(f, x.Path(), List([]), v);
    OtherTables(f, x.Path(), List([]));
  }

  /** Reading three levels one after the other. */
  lemma {:induction false} ThreeLevels(f: Fields, p: seq<string>)
    requires |p| == 3
    ensures DecodeField(Child(Child(f, p[0]), p[1]), p[2]) ==
            if Lookup(f, p).Some? && (Lookup(f, p).value.Str? || Lookup(f, p).value.List?) then Lookup(f, p) else None
  {
    OneLevel(f, p, Str(""));
    OneLevel(Child(f, p[0]), p[1..], Str(""));
  }

  lemma {:induction false} MirroredList(c: Contents, f: Fields, x: Field)
    requires Mirrors(c, f)
    ensures x in c <==> Lookup(f, x.Path()).Some? && Lookup(f, x.Path()).value.List?
    ensures x in c ==> c[x] == ListAt(f, x.Path())
  {
    assert HasAt(c, x, ListOf(f, x));
    ThreeLevels(f, x.Path());
  }

  /** The store: the configuration as a value, and the arrays its list fields live in. Lists are edited in their
      arrays and then read back. */
  class JsonClient {
    var jsonData: Fields
    const lists: Lists

    /** The arrays hold the lists of the configuration, each its own. */
    ghost predicate Valid()
      reads this, lists, lists.arrays
    {
      lists.Valid() && Mirrors(lists.contents, jsonData)
    }

    constructor (data: Fields)
      ensures Valid() && jsonData == data && fresh(lists) && fresh(lists.arrays)
    {
      jsonData := data;
      lists := new Lists();
      new;
      lists.Fill([], Obj(data));
      forall x ensures HasAt(lists.contents, x, ListOf(data, x)) {
        assert FilledAt(lists.contents, map[], [], Obj(data), x);
      }
    }

    /** The value at a path, if it is of the kind that the length of the path asks for. */
    method Get(path: seq<string>) returns (v: Option<Json>)
      requires Valid()
      ensures var p := FixPath(path);
              v == if p == [] then Some(Obj(jsonData))
              else if |p| <= 3 && Removable(jsonData, p) then Lookup(jsonData, p)
              else if |p| == 4 && Removable(jsonData, p) then Some(ListAt(jsonData, p[..3])[Atoi(p[3]).value])
              else None
    {
      var p := FixPath(path);
      if |p| == 0 {
        return Some(Obj(jsonData));
      }
      ghost var q := Names(p);
      if 2 <= |q| <= 3 {
        OneLevel(jsonData, q, Str(""));
      }
      var table := DecodeObject(jsonData, p[0]);
      if |p| > 4 || table == None {
        return None;
      }
      if |p| == 1 {
        return Some(Obj(table.value));
      }
      if |q| == 3 {
        OneLevel(table.value, q[1..], Str(""));
      }
      var entry := DecodeObject(table.value, p[1]);
      if entry == None {
        return None;
      }
      if |p| == 2 {
        return Some(Obj(entry.value));
      }
      var field := DecodeField(entry.value, p[2]);
      if field == None {
        return None;
      }
      if |p| == 3 {
        return field;
      }
      var id := Atoi(p[3]);
      if field.value.Str? || id == None || id.value < 0 {
        return None;
      }
      assert p[..3] == Field(p[0], p[1], p[2]).Path();
      v := GetItem(Field(p[0], p[1], p[2]), id.value);
    }

    method GetItem(x: Field, id: nat) returns (v: Option<Json>)
      requires Valid() && Lookup(jsonData, x.Path()).Some? && Lookup(jsonData, x.Path()).value.List?
      ensures var l := ListAt(jsonData, x.Path()); v == if id < |l| && l[id].Str? then Some(l[id]) else None
    {
      MirroredList(lists.contents, jsonData, x);
      var n := lists.Length(x);
      if id >= n {
        return None;
      }
      var item := lists.Item(x, id);
      return if item.Str? then Some(item) else None;
    }

    /** Tables and entries take objects, fields strings and lists, list positions anything. Objects on the way are
        made, also in place of values of another type. */
    method Add(path: seq<string>, value: Option<Json>) returns (ok: bool)
      requires Valid()
      modifies this, lists, lists.arrays
      ensures Valid() && fresh(lists.arrays - old(lists.arrays))
      ensures ok <==> Addable(old(jsonData), FixPath(path), value)
      ensures ok ==> jsonData == Added(old(jsonData), FixPath(path), value.value)
      ensures path != [] ==> jsonData - {FixPath(path)[0]} == old(jsonData) - {FixPath(path)[0]}
      ensures path == [] ==> jsonData == old(jsonData)
    {
      var p := FixPath(path);
      if |p| == 1 {
        ok := AddTable(p, value);
      } else if |p| == 2 {
        ok := AddEntry(p, value);
      } else if |p| == 3 {
        ok := AddField(p, value);
      } else if |p| == 4 {
        ok := AddItem(p, value);
      } else {
        return false;
      }
    }

    method AddTable(p: seq<string>, value: Option<Json>) returns (ok: bool)
      requires Valid() && |p| == 1
      modifies this, lists
      ensures Valid() && fresh(lists.arrays - old(lists.arrays))
      ensures ok <==> value.Some? && value.value.Obj?
      ensures jsonData == if ok then Put(old(jsonData), p, value.value) else old(jsonData)
    {
      if value == None || !value.value.Obj? {
        return false;
      }
      Moved(p, value.value);
      jsonData := jsonData[p[0] := value.value];
      return true;
    }

    /** The arrays follow a value that is about to be put at a path. */
    method Moved(p: seq<string>, v: Json)
      requires Valid() && 1 <= |p| <= 3
      modifies lists
      ensures lists.Valid() && fresh(lists.arrays - old(lists.arrays))
      ensures Mirrors(lists.contents, Put(jsonData, p, v))
    {
      ghost var c := lists.contents;
      lists.Assign(p, v);
      MirrorsPut(c, lists.contents, jsonData, p, v);
    }

    method AddEntry(p: seq<string>, value: Option<Json>) returns (ok: bool)
      requires Valid() && |p| == 2
      modifies this, lists
      ensures Valid() && fresh(lists.arrays - old(lists.arrays))
      ensures ok <==> value.Some? && value.value.Obj?
      ensures ok ==> jsonData == Put(old(jsonData), p, value.value)
      ensures jsonData - {p[0]} == old(jsonData) - {p[0]}
    {
      var table := DecodeObject(jsonData, p[0]);
      var vtable := if table.Some? then table.value else map[];
      assert p[..1] == [p[0]];
      MirrorsWay(lists.contents, jsonData, p[0], p[1]);
      OneWay(jsonData, p[0]);
      jsonData := jsonData[p[0] := Obj(vtable)];
      if value == None || !value.value.Obj? {
        return false;
      }
      Moved(p, value.value);
      WayThenPut(old(jsonData), p, value.value);
      OneLevel(jsonData, p, value.value);
      vtable := vtable[p[1] := value.value];
      jsonData := jsonData[p[0] := Obj(vtable)];
      return true;
    }

    /** Makes the table and the entry of a path and reads the field. */
    method MakeWay(p: seq<string>) returns (field: Option<Json>)
      requires |p| == 3
      modifies this`jsonData
      ensures jsonData == WithWay(old(jsonData), p[..2])
      ensures field == if Lookup(old(jsonData), p).Some?
                          && (Lookup(old(jsonData), p).value.Str? || Lookup(old(jsonData), p).value.List?)
                       then Lookup(old(jsonData), p) else None
    {
      ThreeLevels(jsonData, p);
      var table := DecodeObject(jsonData, p[0]);
      var vtable := if table.Some? then table.value else map[];
      var entry := DecodeObject(vtable, p[1]);
      var ventry := if entry.Some? then entry.value else map[];
      vtable := vtable[p[1] := Obj(ventry)];
      assert p[..2] == [p[0], p[1]];
      TwoWay(jsonData, p[0], p[1]);
      jsonData := jsonData[p[0] := Obj(vtable)];
      field := DecodeField(ventry, p[2]);
    }

    /** Sets a field whose table and entry exist. */
    method SetField(p: seq<string>, v: Json)
      requires |p| == 3
      modifies this`jsonData
      ensures jsonData == Put(old(jsonData), p, v)
    {
      PutOne(jsonData, p, v);
      var table := DecodeObject(jsonData, p[0]);
      var vtable := if table.Some? then table.value else map[];
      var entry := DecodeObject(vtable, p[1]);
      var ventry := if entry.Some? then entry.value else map[];
      jsonData := jsonData[p[0] := Obj(vtable[p[1] := Obj(ventry[p[2] := v])])];
    }

    method AddField(p: seq<string>, value: Option<Json>) returns (ok: bool)
      requires Valid() && |p| == 3
      modifies this, lists
      ensures Valid() && fresh(lists.arrays - old(lists.arrays))
      ensures ok <==> value.Some? && (value.value.Str? || value.value.List?)
      ensures ok ==> jsonData == Put(old(jsonData), p, value.value)
      ensures jsonData - {p[0]} == old(jsonData) - {p[0]}
    {
      MirrorsWay(lists.contents, jsonData, p[0], p[1]);
      assert p[..2] == [p[0], p[1]];
      var _ := MakeWay(p);
      if value == None || !(value.value.Str? || value.value.List?) {
        return false;
      }
      Moved(p, value.value);
      SetField(p, value.value);
      WayThenPut(old(jsonData), p, value.value);
      return true;
    }

    /** An empty list at a field that has none. */
    method MakeList(x: Field)
      requires Valid()
      modifies this, lists
      ensures Valid() && fresh(lists.arrays - old(lists.arrays))
      ensures jsonData == Put(old(jsonData), x.Path(), List([])) && x in lists.contents && lists.contents[x] == []
    {
      Moved(x.Path(), List([]));
      SetField(x.Path(), List([]));
      MirroredList(lists.contents, jsonData, x);
      PutRead(old(jsonData), x.Path(), List([]));
    }

    /** Makes room for an item in the array of a list. */
    method OpenItem(x: Field, id: nat)
      requires Valid() && x in lists.contents && id <= |lists.contents[x]|
      modifies this, lists, lists.arrays
      ensures Valid() && fresh(lists.arrays - old(lists.arrays))
      ensures lists.contents == old(lists.contents)[x := Opened(old(lists.contents[x]), id)]
      ensures jsonData == Put(old(jsonData), x.Path(), List(lists.contents[x]))
    {
      MirrorsSet(lists.contents, jsonData, x, Opened(lists.contents[x], id));
      lists.Open(x, id);
      var items := lists.Items(x);
      SetField(x.Path(), List(items));
    }

    method SetItem(x: Field, id: nat, v: Json)
      requires Valid() && x in lists.contents && id < |lists.contents[x]|
      modifies this, lists, lists.arrays
      ensures Valid() && lists.arrays == old(lists.arrays)
      ensures jsonData == Put(old(jsonData), x.Path(), List(old(lists.contents[x])[id := v]))
    {
      MirrorsSet(lists.contents, jsonData, x, lists.contents[x][id := v]);
      lists.Set(x, id, v);
      var items := lists.Items(x);
      SetField(x.Path(), List(items));
    }

    /** Makes room for an item and sets it there; without a value the room stays. */
    method InsertItem(x: Field, id: int, value: Option<Json>) returns (ok: bool)
      requires Valid() && x in lists.contents
      modifies this, lists, lists.arrays
      ensures Valid() && fresh(lists.arrays - old(lists.arrays))
      ensures ok <==> value.Some? && 0 <= id <= |old(lists.contents[x])|
      ensures ok ==> jsonData == Put(old(jsonData), x.Path(), List(Inserted(old(lists.contents[x]), id, value.value)))
      ensures jsonData - {x.table} == old(jsonData) - {x.table}
    {
      var n := lists.Length(x);
      if id < 0 || id > n {
        return false;
      }
      ghost var f, l := jsonData, lists.contents[x];
      OpenItem(x, id);
      OtherTables(f, x.Path(), List(Opened(l, id)));
      if value == None {
        return false;
      }
      SetItem(x, id, value.value);
      Inserts(f, x.Path(), l, id, value.value);
      return true;
    }

    /** Makes the way to a list and an empty list where there is none; fails at a string. */
    method ReachList(x: Field) returns (ok: bool)
      requires Valid()
      modifies this, lists
      ensures Valid() && fresh(lists.arrays - old(lists.arrays))
      ensures ok <==> !(Lookup(old(jsonData), x.Path()).Some? && Lookup(old(jsonData), x.Path()).value.Str?)
      ensures ok ==> x in lists.contents && lists.contents[x] == ListAt(old(jsonData), x.Path())
      ensures Reached(old(jsonData), jsonData, x)
    {
      MirroredList(lists.contents, jsonData, x);
      MirrorsWay(lists.contents, jsonData, x.table, x.key);
      assert x.Path()[..2] == [x.table, x.key];
      var field := MakeWay(x.Path());
      if field.Some? && field.value.Str? {
        return false;
      }
      if field == None {
        WayThenPut(old(jsonData), x.Path(), List([]));
        MakeList(x);
      }
      return true;
    }

    method AddItem(p: seq<string>, value: Option<Json>) returns (ok: bool)
      requires Valid() && |p| == 4
      modifies this, lists, lists.arrays
      ensures Valid() && fresh(lists.arrays - old(lists.arrays))
      ensures ok <==> Addable(old(jsonData), p, value)
      ensures ok ==> jsonData == Added(old(jsonData), p, value.value)
      ensures jsonData - {p[0]} == old(jsonData) - {p[0]}
    {
      var id := Atoi(p[3]);
      if id == None {
        return false;
      }
      var x := Field(p[0], p[1], p[2]);
      assert p[..3] == x.Path();
      ghost var f := jsonData;
      ok := ReachList(x);
      ReachedSame(f, jsonData, x, Str(""));
      if !ok {
        return false;
      }
      ghost var g, l := jsonData, lists.contents[x];
      ok := InsertItem(x, id.value, value);
      if ok {
        ReachedSame(f, g, x, List(Inserted(l, id.value, value.value)));
      }
    }

    /** Removes what is at a path and every object that becomes empty; an error changes nothing. */
    method Remove(path: seq<string>) returns (ok: bool)
      requires Valid()
      modifies this, lists, lists.arrays
      ensures Valid() && fresh(lists.arrays - old(lists.arrays))
      ensures ok <==> Removable(old(jsonData), FixPath(path))
      ensures ok ==> jsonData == Removed(old(jsonData), FixPath(path))
      ensures !ok ==> jsonData == old(jsonData)
    {
      var p := FixPath(path);
      if |p| == 1 {
        if DecodeObject(jsonData, p[0]) == None {
          return false;
        }
        Forget(p);
        jsonData := jsonData - {p[0]};
        return true;
      }
      if |p| == 2 {
        ok := RemoveEntry(p);
      } else if |p| == 3 {
        ok := RemoveField(p);
      } else if |p| == 4 {
        ok := RemoveItem(p);
      } else {
        return false;
      }
    }

    /** The arrays follow a value that is about to be removed. */
    method Forget(p: seq<string>)
      requires Valid() && 1 <= |p| <= 3
      modifies lists
      ensures lists.Valid() && lists.arrays == old(lists.arrays)
      ensures Mirrors(lists.contents, Cut(jsonData, p))
    {
      MirrorsCut(lists.contents, jsonData, p);
      lists.Drop(p);
    }

    method RemoveEntry(p: seq<string>) returns (ok: bool)
      requires Valid() && |p| == 2
      modifies this, lists
      ensures Valid() && lists.arrays == old(lists.arrays)
      ensures ok <==> Removable(old(jsonData), p)
      ensures jsonData == if ok then Cut(old(jsonData), p) else old(jsonData)
    {
      OneLevel(jsonData, p, Str(""));
      var table := DecodeObject(jsonData, p[0]);
      if table == None {
        return false;
      }
      var entry := DecodeObject(table.value, p[1]);
      if entry == None {
        return false;
      }
      Forget(p);
      CutEntry(p, table.value);
      return true;
    }

    /** Removes an entry, and its table if that becomes empty. */
    method CutEntry(p: seq<string>, table: Fields)
      requires |p| == 2 && DecodeObject(jsonData, p[0]) == Some(table)
      modifies this`jsonData
      ensures jsonData == Cut(old(jsonData), p)
    {
      CutLevel(jsonData, p);
      assert Cut(table, p[1..]) == table - {p[1]};
      var vtable := table - {p[1]};
      jsonData := jsonData[p[0] := Obj(vtable)];
      if vtable == map[] {
        jsonData := jsonData - {p[0]};
      }
    }

    method RemoveField(p: seq<string>) returns (ok: bool)
      requires Valid() && |p| == 3
      modifies this, lists
      ensures Valid() && lists.arrays == old(lists.arrays)
      ensures ok <==> Removable(old(jsonData), p)
      ensures jsonData == if ok then Cut(old(jsonData), p) else old(jsonData)
    {
      OneLevel(jsonData, p, Str(""));
      var table := DecodeObject(jsonData, p[0]);
      if table == None {
        return false;
      }
      OneLevel(table.value, p[1..], Str(""));
      var entry := DecodeObject(table.value, p[1]);
      if entry == None || DecodeField(entry.value, p[2]) == None {
        return false;
      }
      Forget(p);
      CutField(p, table.value, entry.value);
      return true;
    }

    /** Removes a field, and its entry and table if they become empty. */
    method CutField(p: seq<string>, table: Fields, ventry: Fields)
      requires |p| == 3 && DecodeObject(jsonData, p[0]) == Some(table) && DecodeObject(table, p[1]) == Some(ventry)
      modifies this`jsonData
      ensures jsonData == Cut(old(jsonData), p)
    {
      CutLevel(jsonData, p);
      CutLevel(table, p[1..]);
      var entry := ventry - {p[2]};
      var vtable := table[p[1] := Obj(entry)];
      if entry == map[] {
        vtable := vtable - {p[1]};
        assert vtable == table - {p[1]};
      }
      jsonData := jsonData[p[0] := Obj(vtable)];
      if vtable == map[] {
        jsonData := jsonData - {p[0]};
      }
    }

    method RemoveItem(p: seq<string>) returns (ok: bool)
      requires Valid() && |p| == 4
      modifies this, lists, lists.arrays
      ensures Valid() && fresh(lists.arrays - old(lists.arrays))
      ensures ok <==> Removable(old(jsonData), p)
      ensures jsonData == if ok then Removed(old(jsonData), p) else old(jsonData)
    {
      var x := Field(p[0], p[1], p[2]);
      assert p[..3] == x.Path();
      ThreeLevels(jsonData, x.Path());
      var id := Atoi(p[3]);
      var table := DecodeObject(jsonData, p[0]);
      if id == None || table == None {
        return false;
      }
      var entry := DecodeObject(table.value, p[1]);
      if entry == None {
        return false;
      }
      var field := DecodeField(entry.value, p[2]);
      if field == None || field.value.Str? || id.value < 0 {
        return false;
      }
      var item := GetItem(x, id.value);
      if item == None {
        return false;
      }
      DeleteItem(x, id.value);
      return true;
    }

    /** Takes an item out of the array of a list, and the list out of the store if that was its last one. */
    method DeleteItem(x: Field, id: nat)
      requires Valid() && id < |ListAt(jsonData, x.Path())|
      modifies this, lists, lists.arrays
      ensures Valid() && fresh(lists.arrays - old(lists.arrays))
      ensures jsonData == CutItem(old(jsonData), x.Path(), id)
    {
      ShrinkItem(x, id);
      var n := lists.Length(x);
      if n == 0 {
        CutIgnoresValue(old(jsonData), x.Path(), List([]));
        PutRead(old(jsonData), x.Path(), List([]));
        var _ := RemoveField(x.Path());
      }
    }

    /** The shorter list, which may be empty. */
    method ShrinkItem(x: Field, id: nat)
      requires Valid() && id < |ListAt(jsonData, x.Path())|
      modifies this, lists, lists.arrays
      ensures Valid() && lists.arrays == old(lists.arrays) && x in lists.contents
      ensures lists.contents[x] == Without(ListAt(old(jsonData), x.Path()), id)
      ensures jsonData == Put(old(jsonData), x.Path(), List(lists.contents[x]))
    {
      MirroredList(lists.contents, jsonData, x);
      MirrorsSet(lists.contents, jsonData, x, Without(lists.contents[x], id));
      lists.Delete(x, id);
      var items := lists.Items(x);
      SetField(x.Path(), List(items));
    }

    /** Removes, then adds; a failed add after the removal leaves the path removed. */
    method Replace(path: seq<string>, value: Option<Json>) returns (ok: bool)
      requires Valid()
      modifies this, lists, lists.arrays
      ensures Valid() && fresh(lists.arrays - old(lists.arrays))
      ensures !Removable(old(jsonData), FixPath(path)) ==> !ok && jsonData == old(jsonData)
      ensures ok && |path| <= 3 ==> value.Some? && path != []
                                    && jsonData == Put(old(jsonData), FixPath(path), value.value)
      ensures ok && |path| == 4 ==>
                var (p, i) := (FixPath(path)[..3], Atoi(FixPath(path)[3]));
                && value.Some? && i.Some? && 0 <= i.value < |ListAt(old(jsonData), p)|
                && jsonData == Put(old(jsonData), p, List(ListAt(old(jsonData), p)[i.value := value.value]))
    {
      ok := Remove(path);
      if !ok {
        return;
      }
      ok := Add(path, value);
      if ok && |path| <= 3 {
        PutAfterCut(old(jsonData), FixPath(path), value.value);
      } else if ok {
        ReplaceItem(old(jsonData), FixPath(path)[..3], Atoi(FixPath(path)[3]).value, value.value);
      }
    }
  }

  // ----- add and remove together

  /** The path has no value yet; a list position takes a new item wherever it is. */
  predicate Free(f: Fields, p: seq<string>) {
    1 <= |p| <= 3 ==> Lookup(f, p) == None
  }

  /** What a caller can check beforehand: the containers already on the way are not empty and of the right kind. */
  predicate Undoable(f: Fields, p: seq<string>, v: Json)
    requires 1 <= |p| <= 4
  {
    if |p| <= 3 then WayFull(f, p)
    else v.Str? && (ListAt(f, p[..3]) != [] || (Lookup(f, p[..3]) == None && WayFull(f, p[..3])))
  }

  /** MAIN RESULT. After a successful `Add` at a free path, `Remove` of that path succeeds and restores the
      configuration exactly when the addition is undoable. */
  lemma {:induction false} RemoveUndoesAddIff(f: Fields, p: seq<string>, v: Json)
    requires Addable(f, p, Some(v)) && Free(f, p)
    ensures (Removable(Added(f, p, v), p) && Removed(Added(f, p, v), p) == f) <==> Undoable(f, p, v)
  {
    if |p| <= 3 {
      PutRead(f, p, v);
      CutUndoesPutIff(f, p, v);
    } else {
      PutItemRead(f, p[..3], Atoi(p[3]).value, v);
      CutUndoesPutItemIff(f, p[..3], Atoi(p[3]).value, v);
    }
  }

  /** What `Remove` takes away. */
  function Taken(f: Fields, p: seq<string>): Json
    requires Removable(f, p)
  {
    if |p| == 4 then ListAt(f, p[..3])[Atoi(p[3]).value] else Lookup(f, p).value
  }

  /** MAIN RESULT. Whatever `Remove` takes away can be added again, and that restores the configuration. */
  lemma {:induction false} AddUndoesRemove(f: Fields, p: seq<string>)
    requires Removable(f, p)
    ensures Addable(Removed(f, p), p, Some(Taken(f, p))) && Added(Removed(f, p), p, Taken(f, p)) == f
  {
    if |p| <= 3 {
      PutAfterCut(f, p, Taken(f, p));
      PutSame(f, p);
    } else {
      var q, i := p[..3], Atoi(p[3]).value;
      ReplaceItem(f, q, i, Taken(f, p));
      assert ListAt(f, q)[i := Taken(f, p)] == ListAt(f, q);
      PutSame(f, q);
      ShorterList(f, q, i);
    }
  }

  lemma {:induction false} ShorterList(f: Fields, q: seq<string>, i: nat)
    requires q != [] && i < |ListAt(f, q)|
    ensures var l := Lookup(CutItem(f, q, i), q); !(l.Some? && l.value.Str?)
  {
    CutGone(f, q);
    PutRead(f, q, List(Without(ListAt(f, q), i)));
  }

  /** `Remove` keeps a configuration free of empty containers. */
  lemma {:induction false} RemoveKeepsPruned(f: Fields, p: seq<string>)
    requires Removable(f, p) && PrunedFields(f)
    ensures PrunedFields(Removed(f, p))
  {
    if |p| <= 3 {
      CutKeepsPruned(f, p);
    } else {
      var l := Without(ListAt(f, p[..3]), Atoi(p[3]).value);
      if l == [] {
        CutKeepsPruned(f, p[..3]);
      } else {
        PutKeepsPruned(f, p[..3], List(l));
      }
    }
  }

  /** On a configuration free of empty containers every undoable addition has a right kind on the way. */
  lemma {:induction false} PrunedWay(f: Fields, p: seq<string>)
    requires p != [] && PrunedFields(f)
    ensures WayFull(f, p) <==> ObjectsOnly(f, p)
    decreases |p|
  {
    if |p| > 1 && p[0] in f && f[p[0]].Obj? {
      assert Pruned(f[p[0]]);
      PrunedWay(f[p[0]].fields, p[1..]);
    }
  }

  predicate ObjectsOnly(f: Fields, p: seq<string>)
    requires p != []
    decreases |p|
  {
    |p| > 1 && p[0] in f ==> f[p[0]].Obj? && ObjectsOnly(f[p[0]].fields, p[1..])
  }

  /** Both calls leave every path apart from theirs as it was. */
  lemma {:induction false} OthersKept(f: Fields, p: seq<string>, v: Json, q: seq<string>)
    requires q != [] && JsonConfig.Apart(Names(p), q)
    ensures Addable(f, p, Some(v)) ==> Lookup(Added(f, p, v), q) == Lookup(f, q)
    ensures Removable(f, p) ==> Lookup(Removed(f, p), q) == Lookup(f, q)
  {
    if Addable(f, p, Some(v)) {
      if |p| == 4 {
        PutElsewhere(f, p[..3], List(Inserted(ListAt(f, p[..3]), Atoi(p[3]).value, v)), q);
      } else {
        PutElsewhere(f, p, v, q);
      }
    }
    if Removable(f, p) {
      CutElsewhere(f, Names(p), q);
      if |p| == 4 {
        PutElsewhere(f, p[..3], List(Without(ListAt(f, p[..3]), Atoi(p[3]).value)), q);
      }
    }
  }
}
