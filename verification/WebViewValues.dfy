/**
 * `WebViewValue`: a nested value built on the heap, one pending child per node. A client sets a type and
 * a scalar, or asks for a child, fills it and saves it into the list or the dictionary.
 */
module WebViewValues {
  datatype Kind = NONE | BOOLEAN | INTEGER | DOUBLE | STRING | BINARY | DICTIONARY | LIST

  // The union of the three scalar members; only the one written last may be read.
  datatype Data = Unset | N(n: int) | B(b: bool) | F(f: real)

  const INT_LIMIT := 0x8000_0000

  type Bytes = s: string | |s| < INT_LIMIT

  // What a client sets out to build; a dictionary is filled entry by entry, in this order.
  datatype Plan =
    | PNone
    | PBool(bool)
    | PInt(int)
    | PDouble(real)
    | PString(string)
    | PBinary(Bytes)
    | PList(items: seq<Plan>)
    | PDict(entries: seq<Entry>)

  datatype Entry = Entry(key: string, value: Plan)

  // What the getters show of a built value.
  datatype Value =
    | VNone
    | VBool(bool)
    | VInt(int)
    | VDouble(real)
    | VString(string)
    | VBinary(string)
    | VList(seq<Value>)
    | VDict(map<string, Value>)

  function Meaning(p: Plan): Value {
    match p
    case PNone => VNone
    case PBool(b) => VBool(b)
    case PInt(n) => VInt(n)
    case PDouble(f) => VDouble(f)
    case PString(s) => VString(s)
    case PBinary(s) => VBinary(s)
    case PList(items) => VList(seq(|items|, i requires 0 <= i < |items| => Meaning(items[i])))
    case PDict(entries) => VDict(Bindings(entries, |entries|))
  }

  // The dictionary after the first n entries.
  function Bindings(entries: seq<Entry>, n: nat): map<string, Value>
    requires n <= |entries|
    decreases entries, n
  {
    if n == 0 then map[]
    else Bindings(entries, n - 1)[entries[n - 1].key := Meaning(entries[n - 1].value)]
  }

  lemma {:induction false} KeysAreSaved(entries: seq<Entry>, n: nat, key: string)
    requires n <= |entries|
    ensures key in Bindings(entries, n) <==> exists i :: 0 <= i < n && entries[i].key == key
  {
    if n > 0 {
      KeysAreSaved(entries, n - 1, key);
    }
  }

  // A key shows the entry that was saved last under it.
  lemma {:induction false} LastEntryWins(entries: seq<Entry>, n: nat, i: nat)
    requires i < n <= |entries|
    requires forall j :: i < j < n ==> entries[j].key != entries[i].key
    ensures entries[i].key in Bindings(entries, n)
    ensures Bindings(entries, n)[entries[i].key] == Meaning(entries[i].value)
  {
    if i < n - 1 {
      LastEntryWins(entries, n - 1, i);
    }
  }

  class WebViewValue {
    var kind: Kind
    var data: Data
    var str: string
    var child: WebViewValue?
    var list: seq<WebViewValue>
    var dict: map<string, WebViewValue>
    ghost var Repr: set<WebViewValue> // this node and all that was ever saved below it

    // A node as it comes from the default constructor.
    ghost predicate Blank()
      reads this
    {
      kind == NONE && child == null && list == [] && dict == map[] && Repr == {this}
    }

    ghost predicate Owns(c: WebViewValue)
      reads this, c
    {
      c in Repr && c.Repr <= Repr && this !in c.Repr
    }

    // A finished node: no pending child, disjoint finished subtrees, and the scalar its type names is set.
    ghost predicate Valid()
      reads this, Repr
      decreases Repr
    {
      && this in Repr
      && child == null
      && (kind == BOOLEAN ==> data.B?)
      && (kind == INTEGER ==> data.N?)
      && (kind == DOUBLE ==> data.F?)
      && (kind == BINARY ==> |str| < INT_LIMIT)
      && (forall i :: 0 <= i < |list| ==> list[i] in Repr && Owns(list[i]) && list[i].Valid())
      && (forall k :: k in dict ==> dict[k] in Repr && Owns(dict[k]) && dict[k].Valid())
      && (forall i, j :: 0 <= i < j < |list| ==> list[i].Repr !! list[j].Repr)
      && (forall k, l :: k in dict && l in dict && k != l ==> dict[k].Repr !! dict[l].Repr)
      && (forall i, k :: 0 <= i < |list| && k in dict ==> list[i].Repr !! dict[k].Repr)
    }

    // The value read through the getters, by the type each node reports.
    ghost function View(): Value
      requires Valid()
      reads this, Repr
      decreases Repr
    {
      match GetType()
      case NONE => VNone
      case BOOLEAN => VBool(GetBool())
      case INTEGER => VInt(GetInt())
      case DOUBLE => VDouble(GetDouble())
      case STRING => VString(GetString())
      case BINARY =>
        var (length, bytes) := GetBinary();
        VBinary(bytes[..length])
      case LIST =>
        VList(seq(|GetListValue()|, i requires 0 <= i < |list| reads this, Repr requires Valid() => list[i].View()))
      case DICTIONARY =>
        VDict(map k | k in GetDictValue() :: dict[k].View())
    }

    constructor ()
      ensures Blank() && data == Unset && str == ""
    {
      kind, data, str, child, list, dict := NONE, Unset, "", null, [], map[];
      Repr := {this};
    }

    function GetType(): Kind
      reads this
    { kind }

    function GetBool(): bool
      reads this
      requires data.B?
    { data.b }

    function GetInt(): int
      reads this
      requires data.N?
    { data.n }

    function GetDouble(): real
      reads this
      requires data.F?
    { data.f }

    function GetString(): string
      reads this
    { str }

    // The length is the size cast to a 32-bit int.
    function GetBinary(): (int, string)
      reads this
    {
      (if |str| % 0x1_0000_0000 < INT_LIMIT then |str| % 0x1_0000_0000
       else |str| % 0x1_0000_0000 - 0x1_0000_0000, str)
    }

    function GetListValue(): seq<WebViewValue>
      reads this
    { list }

    function GetDictValue(): map<string, WebViewValue>
      reads this
    { dict }

    // The setters store whatever the node's type is; a mismatch is only logged.
    method SetType(k: Kind)
      modifies this`kind
      ensures kind == k
    {
      kind := k;
    }

    method SetBool(value: bool)
      modifies this`data
      ensures data == B(value)
    {
      data := B(value);
    }

    method SetInt(value: int)
      modifies this`data
      ensures data == N(value)
    {
      data := N(value);
    }

    method SetDouble(value: real)
      modifies this`data
      ensures data == F(value)
    {
      data := F(value);
    }

    method SetString(value: string)
      modifies this`str
      ensures str == value
    {
      str := value;
    }

    method SetBinary(length: nat, value: string)
      requires length <= |value|
      modifies this`str
      ensures str == value[..length]
    {
      str := value[..length];
    }

    // A pending child that was not saved is dropped.
    method NewChildValue() returns (c: WebViewValue)
      modifies this`child
      ensures fresh(c) && c.Blank() && child == c
    {
      c := new WebViewValue();
      child := c;
    }

    method SaveListChildValue()
      modifies this`child, this`list, this`Repr
      ensures child == null
      ensures old(child) == null ==> list == old(list) && Repr == old(Repr)
      ensures old(child) != null ==> list == old(list) + [old(child)] && Repr == old(Repr) + old(child.Repr)
    {
      if child == null {
        return;
      }
      list := list + [child];
      Repr := Repr + child.Repr;
      child := null;
    }

    method SaveDictChildValue(key: string)
      modifies this`child, this`dict, this`Repr
      ensures child == null
      ensures old(child) == null ==> dict == old(dict) && Repr == old(Repr)
      ensures old(child) != null ==> dict == old(dict)[key := old(child)] && Repr == old(Repr) + old(child.Repr)
    {
      if child == null {
        return;
      }
      dict := dict[key := child];
      Repr := Repr + child.Repr;
      child := null;
    }
  }

  ghost predicate Finished(c: WebViewValue, value: Value)
    reads c, c.Repr
  {
    c in c.Repr && c.Valid() && c.View() == value
  }

  // A node whose list holds disjoint finished children that show `values`, next to the pending child.
  ghost predicate HoldsList(v: WebViewValue, pending: WebViewValue?, values: seq<Value>)
    reads v, v.Repr
  {
    && v in v.Repr && v.kind == LIST && v.child == pending && v.dict == map[]
    && |v.list| == |values|
    && (forall j :: 0 <= j < |v.list| ==> v.list[j] in v.Repr && v.Owns(v.list[j]) && Finished(v.list[j], values[j]))
    && (forall j, k :: 0 <= j < k < |v.list| ==> v.list[j].Repr !! v.list[k].Repr)
  }

  ghost predicate HoldsDict(v: WebViewValue, pending: WebViewValue?, values: map<string, Value>)
    reads v, v.Repr
  {
    && v in v.Repr && v.kind == DICTIONARY && v.child == pending && v.list == []
    && v.dict.Keys == values.Keys
    && (forall k :: k in v.dict ==> v.dict[k] in v.Repr && v.Owns(v.dict[k]) && Finished(v.dict[k], values[k]))
    && (forall k, l :: k in v.dict && l in v.dict && k != l ==> v.dict[k].Repr !! v.dict[l].Repr)
  }

  lemma ListIsDone(v: WebViewValue, values: seq<Value>)
    requires HoldsList(v, null, values)
    ensures v.Valid() && v.View() == VList(values)
  {
  }

  lemma DictIsDone(v: WebViewValue, values: map<string, Value>)
    requires HoldsDict(v, null, values)
    ensures v.Valid() && v.View() == VDict(values)
  {
  }

  // Drives the builder depth first, as the script bindings do.
  method Fill(v: WebViewValue, p: Plan)
    requires v.Blank()
    modifies v
    ensures fresh(v.Repr - {v})
    ensures Finished(v, Meaning(p))
    decreases p, 2
  {
    if p.PList? {
      v.SetType(LIST);
      FillList(v, p.items);
    } else if p.PDict? {
      v.SetType(DICTIONARY);
      FillDict(v, p.entries);
    } else {
      FillScalar(v, p);
      ScalarIsDone(v, p);
    }
  }

  // The node reports p's type and stores p's scalar.
  ghost predicate HoldsScalar(v: WebViewValue, p: Plan)
    reads v
  {
    match p
    case PNone => v.kind == NONE
    case PBool(b) => v.kind == BOOLEAN && v.data == B(b)
    case PInt(n) => v.kind == INTEGER && v.data == N(n)
    case PDouble(f) => v.kind == DOUBLE && v.data == F(f)
    case PString(s) => v.kind == STRING && v.str == s
    case PBinary(s) => v.kind == BINARY && v.str == s
    case _ => false
  }

  lemma LeafIsValid(v: WebViewValue, p: Plan)
    requires HoldsScalar(v, p)
    requires v.Repr == {v} && v.child == null && v.list == [] && v.dict == map[]
    ensures v.Valid()
  {
  }

  lemma ScalarIsDone(v: WebViewValue, p: Plan)
    requires HoldsScalar(v, p)
    requires v.Repr == {v} && v.child == null && v.list == [] && v.dict == map[]
    ensures Finished(v, Meaning(p))
  {
    LeafIsValid(v, p);
    assert p.PBinary? ==> v.str[..|v.str|] == v.str;
  }

  method FillScalar(v: WebViewValue, p: Plan)
    requires v.Blank() && !p.PList? && !p.PDict?
    modifies v
    ensures v.Repr == {v} && v.child == null && v.list == [] && v.dict == map[]
    ensures HoldsScalar(v, p)
  {
    match p
    case PNone => v.SetType(NONE);
    case PBool(b) => v.SetType(BOOLEAN); v.SetBool(b);
    case PInt(n) => v.SetType(INTEGER); v.SetInt(n);
    case PDouble(f) => v.SetType(DOUBLE); v.SetDouble(f);
    case PString(s) => v.SetType(STRING); v.SetString(s);
    case PBinary(s) => v.SetType(BINARY); v.SetBinary(|s|, s);
  }

  // One child more: new, filled, saved.
  method AddItem(v: WebViewValue, p: Plan, ghost values: seq<Value>)
    requires HoldsList(v, null, values)
    modifies v
    ensures fresh(v.Repr - old(v.Repr))
    ensures HoldsList(v, null, values + [Meaning(p)])
    decreases p, 3
  {
    var c := v.NewChildValue();
    Fill(c, p);
    SaveItem(v, values, Meaning(p));
  }

  method SaveItem(v: WebViewValue, ghost values: seq<Value>, ghost value: Value)
    requires v.child != null && HoldsList(v, v.child, values)
    requires Finished(v.child, value) && v.child.Repr !! v.Repr
    modifies v
    ensures v.Repr == old(v.Repr) + old(v.child.Repr)
    ensures HoldsList(v, null, values + [value])
  {
    v.SaveListChildValue();
  }

  method AddEntry(v: WebViewValue, e: Entry, ghost values: map<string, Value>)
    requires HoldsDict(v, null, values)
    modifies v
    ensures fresh(v.Repr - old(v.Repr))
    ensures HoldsDict(v, null, values[e.key := Meaning(e.value)])
    decreases e, 3
  {
    var c := v.NewChildValue();
    Fill(c, e.value);
    SaveEntry(v, e.key, values, Meaning(e.value));
  }

  method SaveEntry(v: WebViewValue, key: string, ghost values: map<string, Value>, ghost value: Value)
    requires v.child != null && HoldsDict(v, v.child, values)
    requires Finished(v.child, value) && v.child.Repr !! v.Repr
    modifies v
    ensures v.Repr == old(v.Repr) + old(v.child.Repr)
    ensures HoldsDict(v, null, values[key := value])
  {
    v.SaveDictChildValue(key);
  }

  function Meanings(items: seq<Plan>, n: nat): (values: seq<Value>)
    requires n <= |items|
    ensures |values| == n && forall i :: 0 <= i < n ==> values[i] == Meaning(items[i])
  {
    if n == 0 then [] else Meanings(items, n - 1) + [Meaning(items[n - 1])]
  }

  lemma ListMeaning(items: seq<Plan>)
    ensures Meaning(PList(items)) == VList(Meanings(items, |items|))
  {
    assert Meaning(PList(items)) == VList(seq(|items|, i requires 0 <= i < |items| => Meaning(items[i])));
    assert seq(|items|, i requires 0 <= i < |items| => Meaning(items[i])) == Meanings(items, |items|);
  }

  method FillList(v: WebViewValue, items: seq<Plan>)
    requires v.kind == LIST && v.child == null && v.list == [] && v.dict == map[] && v.Repr == {v}
    modifies v
    ensures fresh(v.Repr - {v})
    ensures Finished(v, Meaning(PList(items)))
    decreases items, 0
  {
    var i := 0;
    ghost var values: seq<Value> := [];
    while i < |items|
      invariant 0 <= i <= |items|
      invariant fresh(v.Repr - {v})
      invariant values == Meanings(items, i)
      invariant HoldsList(v, null, values)
    {
      AddItem(v, items[i], values);
      values := values + [Meaning(items[i])];
      i := i + 1;
    }
    ListIsDone(v, values);
    ListMeaning(items);
  }

  method FillDict(v: WebViewValue, entries: seq<Entry>)
    requires v.kind == DICTIONARY && v.child == null && v.list == [] && v.dict == map[] && v.Repr == {v}
    modifies v
    ensures fresh(v.Repr - {v})
    ensures Finished(v, Meaning(PDict(entries)))
    decreases entries, 0
  {
    var i := 0;
    while i < |entries|
      invariant 0 <= i <= |entries|
      invariant fresh(v.Repr - {v})
      invariant HoldsDict(v, null, Bindings(entries, i))
    {
      AddEntry(v, entries[i], Bindings(entries, i));
      i := i + 1;
    }
    DictIsDone(v, Bindings(entries, i));
  }
}
