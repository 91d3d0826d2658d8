/** The decrypted vault body: a list of items kept sorted by name (crates/wcm-core/src/vault/body.rs). */
module Body {
  import opened Basics
  import opened Chars
  import opened Sorting

  datatype FieldValue = Text(s: string) | Binary(b: Bytes)

  datatype Field = Field(value: FieldValue, secret: bool)

  datatype Item = Item(
    id: Bytes,
    name: string,
    kind: string,
    fields: map<string, Field>,
    notes: string,
    tags: seq<string>,
    created: string,
    updated: string)

  datatype Settings = Settings(lastExport: Option<string>)

  datatype VaultBody = VaultBody(items: seq<Item>, settings: Settings)

  const EMPTY_BODY := VaultBody([], Settings(None))

  const MAX_NAME_LEN := 200

  /** `Err` of `validate_name`, as a predicate. */
  predicate ValidName(name: string) {
    && 1 <= |name| <= MAX_NAME_LEN
    && (forall c | c in name :: !IsControl(c))
    && name[0] != '-'
    && name[0] != '/'
    && name[|name| - 1] != '/'
    && ValidSegments(Split(name, '/'))
    && Trim(name) == name
  }

  function Split(s: string, sep: char): (parts: seq<string>)
    ensures parts != []
  {
    if s == [] then [""]
    else
      var rest := Split(s[1..], sep);
      if s[0] == sep then [""] + rest else [[s[0]] + rest[0]] + rest[1..]
  }

  predicate ValidSegments(parts: seq<string>) {
    forall p | p in parts :: p != ".." && p != ""
  }

  /** `slice::iter().find` by exact name. */
  function Find(items: seq<Item>, name: string): Option<Item> {
    if items == [] then None
    else if items[0].name == name then Some(items[0])
    else Find(items[1..], name)
  }

  function Get(b: VaultBody, name: string): Option<Item> { Find(b.items, name) }

  /** The items whose name differs from `name`, in order. */
  function Without(items: seq<Item>, name: string): seq<Item> {
    if items == [] then []
    else if items[0].name != name then [items[0]] + Without(items[1..], name)
    else Without(items[1..], name)
  }

  predicate NameLeq(a: Item, b: Item) { StrLeq(a.name, b.name) }

  function WithItems(b: VaultBody, items: seq<Item>): VaultBody {
    VaultBody(Sort(NameLeq, items), b.settings)
  }

  function Insert(b: VaultBody, item: Item, overwrite: bool): Result<VaultBody> {
    if !ValidName(item.name) then Err(Invalid("item name"))
    else
      var items := Without(b.items, item.name);
      if |items| != |b.items| && !overwrite then Err(AlreadyExists(item.name))
      else Ok(WithItems(b, items + [item]))
  }

  function Remove(b: VaultBody, name: string): Result<VaultBody> {
    if Get(b, name).None? then Err(NotFound(name))
    else Ok(WithItems(b, Without(b.items, name)))
  }

  function Update(b: VaultBody, name: string, f: Item -> Result<Item>): Result<VaultBody> {
    match Get(b, name)
    case None => Err(NotFound(name))
    case Some(cur) =>
      var updated :- f(cur);
      Ok(WithItems(b, Without(b.items, name) + [updated]))
  }

  function Renamed(item: Item, name: string, now: string): Item {
    item.(name := name, updated := now)
  }

  function Rename(b: VaultBody, oldName: string, newName: string, now: string): Result<VaultBody> {
    if !ValidName(newName) then Err(Invalid("item name"))
    else if oldName == newName then Ok(b)
    else if Get(b, newName).Some? then Err(AlreadyExists(newName))
    else Update(b, oldName, (item: Item) => Ok(Renamed(item, newName, now)))
  }

  /** Re-sorts what the codec produced. */
  function Decoded(b: VaultBody): VaultBody { WithItems(b, b.items) }

  /** `wcm mv` (crates/wcm-cli/src/commands/mv.rs). */
  function Move(b: VaultBody, oldName: string, newName: string, force: bool, now: string): Result<VaultBody> {
    if Get(b, oldName).None? then Err(NotFound(oldName))
    else if oldName != newName && Get(b, newName).Some? then
      if !force then Err(AlreadyExists(newName))
      else
        var cleared :- Remove(b, newName);
        Rename(cleared, oldName, newName, now)
    else Rename(b, oldName, newName, now)
  }

  /** Keeps the first occurrence of every name (crates/wcm-cli/src/commands/rm.rs). */
  function DedupNames(acc: seq<string>, names: seq<string>): seq<string>
    decreases |names|
  {
    if names == [] then acc
    else DedupNames(if names[0] in acc then acc else acc + [names[0]], names[1..])
  }

  function CheckAllExist(b: VaultBody, names: seq<string>): Result<()> {
    if names == [] then Ok(())
    else if Get(b, names[0]).None? then Err(NotFound(names[0]))
    else CheckAllExist(b, names[1..])
  }

  function RemoveAll(b: VaultBody, names: seq<string>): Result<VaultBody>
    decreases |names|
  {
    if names == [] then Ok(b)
    else
      var rest :- Remove(b, names[0]);
      RemoveAll(rest, names[1..])
  }

  // ---------------------------------------------------------------------------
  // The body as a finite map
  // ---------------------------------------------------------------------------

  ghost predicate NamesDistinct(items: seq<Item>) {
    forall i, j | 0 <= i < j < |items| :: items[i].name != items[j].name
  }

  /** Sorted by name with no name twice: the form every operation keeps. */
  ghost predicate Canonical(b: VaultBody) {
    SortedBy(NameLeq, b.items) && NamesDistinct(b.items)
  }

  /** What a lookup by name sees. */
  ghost function ToMap(items: seq<Item>): map<string, Item> {
    if items == [] then map[] else ToMap(items[1..])[items[0].name := items[0]]
  }

  ghost function Contents(b: VaultBody): map<string, Item> { ToMap(b.items) }

  ghost predicate Represents(items: seq<Item>, m: map<string, Item>) {
    && (forall it | it in items :: it.name in m && m[it.name] == it)
    && (forall n | n in m :: m[n] in items && m[n].name == n)
  }

  lemma {:induction false} FindIsLookup(items: seq<Item>, name: string)
    ensures Find(items, name) == if name in ToMap(items) then Some(ToMap(items)[name]) else None
  {
    if items != [] { FindIsLookup(items[1..], name); }
  }

  lemma TailNames(items: seq<Item>)
    requires items != [] && NamesDistinct(items)
    ensures NamesDistinct(items[1..])
    ensures forall it | it in items[1..] :: it.name != items[0].name
  {
  }

  lemma {:induction false} ToMapRepresents(items: seq<Item>)
    requires NamesDistinct(items)
    ensures Represents(items, ToMap(items))
  {
    if items != [] {
      TailNames(items);
      ToMapRepresents(items[1..]);
      assert items == [items[0]] + items[1..];
    }
  }

  lemma RepresentsUnique(items: seq<Item>, m: map<string, Item>, m': map<string, Item>)
    requires Represents(items, m) && Represents(items, m')
    ensures m == m'
  {
  }

  lemma SameItemsSameMap(s: seq<Item>, t: seq<Item>)
    requires NamesDistinct(s) && multiset(s) == multiset(t)
    ensures NamesDistinct(t) && ToMap(s) == ToMap(t)
  {
    DistinctIsCount(s);
    DistinctIsCount(t);
    forall x ensures x in s <==> x in t {
      assert x in s <==> x in multiset(s);
      assert x in t <==> x in multiset(t);
    }
    forall i, j | 0 <= i < j < |t| ensures t[i].name != t[j].name {
      assert t[i] in s && t[j] in s;
      var a, b :| 0 <= a < |s| && 0 <= b < |s| && s[a] == t[i] && s[b] == t[j];
      assert t[i] != t[j];
    }
    ToMapRepresents(s);
    ToMapRepresents(t);
    RepresentsUnique(s, ToMap(s), ToMap(t));
  }

  lemma NameLeqOrder()
    ensures TotalPreorder(NameLeq)
  {
    StrLeqOrder();
  }

  lemma WithItemsCanonical(b: VaultBody, items: seq<Item>)
    requires NamesDistinct(items)
    ensures Canonical(WithItems(b, items))
    ensures Contents(WithItems(b, items)) == ToMap(items)
  {
    NameLeqOrder();
    SortSorts(NameLeq, items);
    SameItemsSameMap(items, Sort(NameLeq, items));
  }

  /** Sorting what `decode` read back changes nothing once the list is canonical. */
  lemma DecodedIsIdentity(b: VaultBody)
    requires Canonical(b)
    ensures Decoded(b) == b
  {
    SortedIsFixed(NameLeq, b.items);
  }

  lemma {:induction false} WithoutMembers(items: seq<Item>, name: string)
    ensures forall it :: it in Without(items, name) <==> it in items && it.name != name
    ensures |Without(items, name)| == |items| <==> name !in ToMap(items)
    ensures |Without(items, name)| <= |items|
  {
    if items != [] {
      WithoutMembers(items[1..], name);
      assert items == [items[0]] + items[1..];
    }
  }

  lemma {:induction false} WithoutDistinct(items: seq<Item>, name: string)
    requires NamesDistinct(items)
    ensures NamesDistinct(Without(items, name))
  {
    if items != [] {
      TailNames(items);
      WithoutDistinct(items[1..], name);
      WithoutMembers(items[1..], name);
      var w := Without(items[1..], name);
      forall j | 0 <= j < |w| ensures w[j].name != items[0].name { assert w[j] in w; }
    }
  }

  /** Dropping a name and appending an item is a map update. */
  lemma ReplaceIsUpdate(items: seq<Item>, name: string, item: Item)
    requires NamesDistinct(items)
    requires item.name == name || item.name !in ToMap(items)
    ensures NamesDistinct(Without(items, name) + [item])
    ensures ToMap(Without(items, name) + [item]) == (ToMap(items) - {name})[item.name := item]
  {
    var w := Without(items, name);
    WithoutMembers(items, name);
    WithoutDistinct(items, name);
    ToMapRepresents(items);
    forall it | it in w ensures it.name != item.name {
      assert it in items;
    }
    forall i, j | 0 <= i < j < |w + [item]| ensures (w + [item])[i].name != (w + [item])[j].name {
      if j == |w| { assert w[i] in w; }
    }
    ToMapRepresents(w + [item]);
    var m := (ToMap(items) - {name})[item.name := item];
    assert Represents(w + [item], m) by {
      forall it | it in w + [item] ensures it.name in m && m[it.name] == it {
        assert it in w || it == item;
      }
      forall n | n in m ensures m[n] in w + [item] && m[n].name == n {
        if n != item.name { assert m[n] in w; } else { assert (w + [item])[|w|] == item; }
      }
    }
    RepresentsUnique(w + [item], ToMap(w + [item]), m);
  }

  lemma WithoutIsRemoval(items: seq<Item>, name: string)
    requires NamesDistinct(items)
    ensures NamesDistinct(Without(items, name))
    ensures ToMap(Without(items, name)) == ToMap(items) - {name}
  {
    var w := Without(items, name);
    WithoutMembers(items, name);
    WithoutDistinct(items, name);
    ToMapRepresents(items);
    ToMapRepresents(w);
    RepresentsUnique(w, ToMap(w), ToMap(items) - {name});
  }

  lemma {:induction false} MapSize(items: seq<Item>)
    requires NamesDistinct(items)
    ensures |items| == |ToMap(items)|
  {
    if items != [] {
      TailNames(items);
      MapSize(items[1..]);
      ToMapRepresents(items[1..]);
      assert items[0].name !in ToMap(items[1..]);
    }
  }

  /** The first item of a sorted list is the least name of its map. */
  lemma HeadIsLeast(s: seq<Item>, it: Item)
    requires SortedBy(NameLeq, s) && it in s
    ensures StrLeq(s[0].name, it.name)
  {
    var k :| 0 <= k < |s| && s[k] == it;
    if k == 0 { StrLeqTotal(it.name, it.name); } else { assert NameLeq(s[0], s[k]); }
  }

  lemma SameHead(s: seq<Item>, t: seq<Item>)
    requires s != [] && SortedBy(NameLeq, s) && NamesDistinct(s) && SortedBy(NameLeq, t) && NamesDistinct(t)
    requires ToMap(s) == ToMap(t)
    ensures t != [] && s[0] == t[0]
  {
    ToMapRepresents(s);
    ToMapRepresents(t);
    assert s[0] in s;
    assert s[0] in t;
    assert t[0] in t;
    HeadIsLeast(s, t[0]);
    HeadIsLeast(t, s[0]);
    StrLeqAntisymmetric(s[0].name, t[0].name);
  }

  /** A canonical body is the only list for its map: the list form hides no state. */
  lemma {:induction false} CanonicalUnique(s: seq<Item>, t: seq<Item>)
    requires SortedBy(NameLeq, s) && NamesDistinct(s) && SortedBy(NameLeq, t) && NamesDistinct(t)
    requires ToMap(s) == ToMap(t)
    ensures s == t
  {
    if s == [] {
      if t != [] { SameHead(t, s); }
    } else {
      SameHead(s, t);
      assert SortedBy(NameLeq, s[1..]) && NamesDistinct(s[1..]) by { TailNames(s); }
      assert SortedBy(NameLeq, t[1..]) && NamesDistinct(t[1..]) by { TailNames(t); }
      TailMap(s);
      TailMap(t);
      CanonicalUnique(s[1..], t[1..]);
      assert s == [s[0]] + s[1..] && t == [t[0]] + t[1..];
    }
  }

  lemma TailMap(s: seq<Item>)
    requires s != [] && NamesDistinct(s)
    ensures ToMap(s[1..]) == ToMap(s) - {s[0].name}
  {
    var n, t := s[0].name, ToMap(s[1..]);
    assert n !in t by {
      TailNames(s);
      ToMapRepresents(s[1..]);
    }
    assert t[n := s[0]] - {n} == t;
  }

  // ---------------------------------------------------------------------------
  // Every operation is the map operation, with exactly these errors
  // ---------------------------------------------------------------------------

  lemma InsertIsMapUpdate(b: VaultBody, item: Item, overwrite: bool)
    requires Canonical(b)
    ensures Insert(b, item, overwrite).Ok? <==>
            ValidName(item.name) && (overwrite || item.name !in Contents(b))
    ensures !ValidName(item.name) ==> Insert(b, item, overwrite).error.Invalid?
    ensures ValidName(item.name) && Insert(b, item, overwrite).Err? ==>
              Insert(b, item, overwrite) == Err(AlreadyExists(item.name))
    ensures Insert(b, item, overwrite).Ok? ==>
              var r := Insert(b, item, overwrite).value;
              Canonical(r) && Contents(r) == Contents(b)[item.name := item] && r.settings == b.settings
  {
    WithoutMembers(b.items, item.name);
    ReplaceIsUpdate(b.items, item.name, item);
    var items := Without(b.items, item.name) + [item];
    WithItemsCanonical(b, items);
    assert (Contents(b) - {item.name})[item.name := item] == Contents(b)[item.name := item];
  }

  lemma RemoveIsMapRemoval(b: VaultBody, name: string)
    requires Canonical(b)
    ensures Remove(b, name) == Err(NotFound(name)) <==> name !in Contents(b)
    ensures name in Contents(b) ==>
              && Remove(b, name).Ok?
              && var r := Remove(b, name).value;
              Canonical(r) && Contents(r) == Contents(b) - {name} && r.settings == b.settings
  {
    FindIsLookup(b.items, name);
    WithoutIsRemoval(b.items, name);
    WithItemsCanonical(b, Without(b.items, name));
  }

  lemma UpdateIsMapUpdate(b: VaultBody, name: string, f: Item -> Result<Item>)
    requires Canonical(b)
    requires name in Contents(b) && f(Contents(b)[name]).Ok? ==>
               var n := f(Contents(b)[name]).value.name; n == name || n !in Contents(b)
    ensures name !in Contents(b) ==> Update(b, name, f) == Err(NotFound(name))
    ensures name in Contents(b) ==>
              var fr := f(Contents(b)[name]);
              && (fr.Err? ==> Update(b, name, f) == Err(fr.error))
              && (fr.Ok? ==>
                    && Update(b, name, f).Ok?
                    && var r := Update(b, name, f).value;
                    && Canonical(r)
                    && Contents(r) == (Contents(b) - {name})[fr.value.name := fr.value]
                    && r.settings == b.settings)
  {
    FindIsLookup(b.items, name);
    if name in Contents(b) && f(Contents(b)[name]).Ok? {
      var item := f(Contents(b)[name]).value;
      ReplaceIsUpdate(b.items, name, item);
      WithItemsCanonical(b, Without(b.items, name) + [item]);
    }
  }

  /** The same item under another name: only name and time of change differ. */
  predicate IsMoved(was: Item, item: Item, name: string, now: string) {
    item.name == name && item.updated == now && item.(name := was.name, updated := was.updated) == was
  }

  /** One entry has gone from `oldName` to `newName`, over whatever stood there; all others are as before. */
  ghost predicate EntryMoved(was: map<string, Item>, m: map<string, Item>, oldName: string, newName: string,
                             now: string)
  {
    && oldName in was && newName in m
    && IsMoved(was[oldName], m[newName], newName, now)
    && m - {newName} == was - {oldName, newName}
  }

  lemma MapMoves(was: map<string, Item>, oldName: string, newName: string, now: string)
    requires oldName in was && was[oldName].name == oldName
    ensures EntryMoved(was, (was - {oldName})[newName := Renamed(was[oldName], newName, now)], oldName, newName, now)
  {
  }

  lemma {:induction false} LookupName(items: seq<Item>, name: string)
    requires name in ToMap(items)
    ensures ToMap(items)[name].name == name
  {
    if items[0].name != name { LookupName(items[1..], name); }
  }

  /** `rename` answers a bad name first, then a name kept as it is, then a taken and then a missing one. */
  lemma RenameIsMapMove(b: VaultBody, oldName: string, newName: string, now: string)
    requires Canonical(b)
    ensures var r := Rename(b, oldName, newName, now);
            && (r.Ok? <==>
                  && ValidName(newName)
                  && (oldName == newName || (newName !in Contents(b) && oldName in Contents(b))))
            && (!ValidName(newName) ==> r.error.Invalid?)
            && (ValidName(newName) && oldName == newName ==> r == Ok(b))
            && (ValidName(newName) && oldName != newName && newName in Contents(b) ==> r == Err(AlreadyExists(newName)))
            && (ValidName(newName) && oldName != newName && newName !in Contents(b) && oldName !in Contents(b) ==>
                  r == Err(NotFound(oldName)))
            && (r.Ok? && oldName != newName ==>
                  && Canonical(r.value)
                  && EntryMoved(Contents(b), Contents(r.value), oldName, newName, now)
                  && r.value.settings == b.settings)
  {
    FindIsLookup(b.items, newName);
    if newName !in Contents(b) { UpdateIsMapUpdate(b, oldName, (item: Item) => Ok(Renamed(item, newName, now))); }
    if oldName in Contents(b) {
      LookupName(b.items, oldName);
      MapMoves(Contents(b), oldName, newName, now);
    }
  }

  /** `mv` moves the entry; with `force` an existing target disappears, without it the move is refused. */
  lemma MoveIsMapMove(b: VaultBody, oldName: string, newName: string, force: bool, now: string)
    requires Canonical(b)
    ensures var r := Move(b, oldName, newName, force, now);
            var taken := oldName != newName && newName in Contents(b);
            && (r.Ok? <==> oldName in Contents(b) && ValidName(newName) && (!taken || force))
            && (oldName !in Contents(b) ==> r == Err(NotFound(oldName)))
            && (oldName in Contents(b) && taken && !force ==> r == Err(AlreadyExists(newName)))
            && (oldName in Contents(b) && (!taken || force) && !ValidName(newName) ==> r.error.Invalid?)
            && (r.Ok? && oldName == newName ==> r == Ok(b))
            && (r.Ok? && oldName != newName ==>
                  && Canonical(r.value)
                  && EntryMoved(Contents(b), Contents(r.value), oldName, newName, now)
                  && r.value.settings == b.settings)
  {
    FindIsLookup(b.items, oldName);
    FindIsLookup(b.items, newName);
    RenameIsMapMove(b, oldName, newName, now);
    if oldName != newName && newName in Contents(b) {
      RemoveIsMapRemoval(b, newName);
      RenameIsMapMove(Remove(b, newName).value, oldName, newName, now);
      assert Contents(b) - {newName} - {oldName, newName} == Contents(b) - {oldName, newName};
    }
  }

  ghost function NameSet(names: seq<string>): set<string> { set n | n in names }

  lemma {:induction false} DedupNamesKeeps(acc: seq<string>, names: seq<string>)
    requires Distinct(acc)
    ensures Distinct(DedupNames(acc, names))
    ensures NameSet(DedupNames(acc, names)) == NameSet(acc) + NameSet(names)
    ensures acc <= DedupNames(acc, names)
    decreases |names|
  {
    if names != [] {
      var next := if names[0] in acc then acc else acc + [names[0]];
      DedupNamesKeeps(next, names[1..]);
      assert names == [names[0]] + names[1..];
      assert NameSet(next) == NameSet(acc) + {names[0]};
    }
  }

  lemma {:induction false} CheckAllExistIff(b: VaultBody, names: seq<string>)
    ensures CheckAllExist(b, names).Ok? <==> NameSet(names) <= Contents(b).Keys
  {
    if names != [] {
      FindIsLookup(b.items, names[0]);
      CheckAllExistIff(b, names[1..]);
      assert names == [names[0]] + names[1..];
      assert NameSet(names) == {names[0]} + NameSet(names[1..]);
    }
  }

  /** The check names the first name that is missing. */
  lemma {:induction false} FirstMissing(b: VaultBody, names: seq<string>) returns (i: nat)
    requires CheckAllExist(b, names).Err?
    ensures i < |names| && names[i] !in Contents(b) && CheckAllExist(b, names) == Err(NotFound(names[i]))
    ensures forall j | 0 <= j < i :: names[j] in Contents(b)
  {
    FindIsLookup(b.items, names[0]);
    if names[0] !in Contents(b) {
      i := 0;
    } else {
      var k := FirstMissing(b, names[1..]);
      i := k + 1;
      forall j | 0 <= j < i ensures names[j] in Contents(b) { assert j > 0 ==> names[j] == names[1..][j - 1]; }
    }
  }

  /** Removing a list of names succeeds exactly when all exist and none is repeated. */
  lemma {:induction false} RemoveAllIff(b: VaultBody, names: seq<string>)
    requires Canonical(b)
    ensures RemoveAll(b, names).Ok? <==> NameSet(names) <= Contents(b).Keys && Distinct(names)
    ensures RemoveAll(b, names).Ok? ==>
              var r := RemoveAll(b, names).value;
              Canonical(r) && Contents(r) == Contents(b) - NameSet(names) && r.settings == b.settings
    decreases |names|
  {
    if names != [] {
      var n, rest := names[0], names[1..];
      assert names == [n] + rest;
      assert NameSet(names) == {n} + NameSet(rest);
      assert Distinct(names) <==> Distinct(rest) && n !in rest by {
        assert forall i | 0 <= i < |rest| :: rest[i] == names[i + 1];
        if Distinct(rest) && n !in rest {
          forall i, j | 0 <= i < j < |names| ensures names[i] != names[j] {
            if i > 0 { assert rest[i - 1] != rest[j - 1]; } else { assert rest[j - 1] in rest; }
          }
        }
      }
      RemoveIsMapRemoval(b, n);
      if n in Contents(b) {
        var b' := Remove(b, n).value;
        RemoveAllIff(b', rest);
        assert Contents(b') == Contents(b) - {n};
        assert NameSet(rest) <= Contents(b').Keys <==> NameSet(rest) <= Contents(b).Keys && n !in rest;
      }
    }
  }

  /** `wcm rm`: after `dedup` and the existence check the removal cannot fail and removes exactly the names. */
  lemma RemoveCommandCannotFail(b: VaultBody, names: seq<string>)
    requires Canonical(b) && CheckAllExist(b, DedupNames([], names)).Ok?
    ensures RemoveAll(b, DedupNames([], names)).Ok?
    ensures Canonical(RemoveAll(b, DedupNames([], names)).value)
    ensures Contents(RemoveAll(b, DedupNames([], names)).value) == Contents(b) - NameSet(names)
  {
    var d := DedupNames([], names);
    DedupNamesKeeps([], names);
    CheckAllExistIff(b, d);
    RemoveAllIff(b, d);
    assert NameSet(d) == NameSet(names);
  }

  /** Whatever order the codec produced, `decode` yields the same items in the order of their names. */
  lemma DecodedSorts(b: VaultBody)
    ensures SortedBy(NameLeq, Decoded(b).items)
    ensures multiset(Decoded(b).items) == multiset(b.items) && Decoded(b).settings == b.settings
  {
    NameLeqOrder();
    SortSorts(NameLeq, b.items);
  }

  // ---------------------------------------------------------------------------
  // Names
  // ---------------------------------------------------------------------------

  /** The segments with a slash between each two. */
  function Joined(parts: seq<string>): string
    requires parts != []
  {
    if |parts| == 1 then parts[0] else parts[0] + "/" + Joined(parts[1..])
  }

  lemma JoinedCons(c: char, parts: seq<string>)
    requires parts != []
    ensures Joined([[c] + parts[0]] + parts[1..]) == [c] + Joined(parts)
  {
    var more := [[c] + parts[0]] + parts[1..];
    if |parts| > 1 {
      assert more[1..] == parts[1..];
      assert [c] + parts[0] + "/" + Joined(parts[1..]) == [c] + (parts[0] + "/" + Joined(parts[1..]));
    }
  }

  lemma {:induction false} SplitJoins(s: string)
    ensures Joined(Split(s, '/')) == s
    ensures forall p | p in Split(s, '/') :: '/' !in p
  {
    if s != [] {
      var rest := Split(s[1..], '/');
      SplitJoins(s[1..]);
      assert s == [s[0]] + s[1..];
      if s[0] == '/' {
        assert ([""] + rest)[1..] == rest;
        assert "" + "/" + Joined(rest) == ['/'] + Joined(rest);
      } else {
        JoinedCons(s[0], rest);
        forall p | p in Split(s, '/') ensures '/' !in p { assert p == [s[0]] + rest[0] || p in rest[1..]; }
      }
    }
  }

  /** There is no other way to cut a string at its slashes. */
  lemma {:induction false} SplitIsOnly(parts: seq<string>)
    requires parts != [] && forall p | p in parts :: '/' !in p
    ensures Split(Joined(parts), '/') == parts
    decreases |parts|, |parts[0]|
  {
    var s := Joined(parts);
    if parts[0] == "" {
      if |parts| > 1 {
        SplitIsOnly(parts[1..]);
        assert s[0] == '/' && s[1..] == Joined(parts[1..]);
        assert parts == [""] + parts[1..];
      }
    } else {
      var c, less := parts[0][0], [parts[0][1..]] + parts[1..];
      assert parts[0] == [c] + parts[0][1..] && less[1..] == parts[1..];
      assert parts == [[c] + less[0]] + less[1..];
      JoinedCons(c, less);
      assert c in parts[0] && parts[0] in parts;
      assert forall x | x in parts[0][1..] :: x in parts[0];
      forall p | p in less ensures '/' !in p { assert p == parts[0][1..] || p in parts; }
      SplitIsOnly(less);
      assert s[0] == c && s[1..] == Joined(less);
    }
  }

  lemma {:induction false} SlashAtEnd(s: string)
    requires s != "" && s[|s| - 1] == '/'
    ensures "" in Split(s, '/')
  {
    var rest := Split(s[1..], '/');
    if |s| == 1 {
      assert s[1..] == "";
    } else {
      SlashAtEnd(s[1..]);
      if s[0] != '/' { SplitHasMore(s[1..]); }
    }
  }

  lemma {:induction false} SplitHasMore(s: string)
    requires s != "" && s[|s| - 1] == '/'
    ensures "" in Split(s, '/')[1..]
  {
    var rest := Split(s[1..], '/');
    if |s| == 1 {
      assert s[1..] == "";
    } else {
      SplitHasMore(s[1..]);
      assert s[0] == '/' ==> Split(s, '/')[1..] == rest;
    }
  }

  lemma TrimmedIff(s: string)
    requires s != ""
    ensures Trim(s) == s <==> !IsWhitespace(s[0]) && !IsWhitespace(s[|s| - 1])
  {
    var a, b := TrimIs(s);
  }

  predicate AllPlain(parts: seq<string>) {
    forall p | p in parts :: '/' !in p && p != "" && p != ".."
  }

  lemma SegmentsIff(name: string)
    requires name != ""
    ensures name[0] != '/' && name[|name| - 1] != '/' && ValidSegments(Split(name, '/')) <==>
              exists parts :: parts != [] && Joined(parts) == name && AllPlain(parts)
  {
    var own := Split(name, '/');
    SplitJoins(name);
    if name[0] == '/' { assert own[0] == "" && own[0] in own; }
    if name[|name| - 1] == '/' { SlashAtEnd(name); }
    if ValidSegments(own) { assert Joined(own) == name && AllPlain(own); }
    if parts :| parts != [] && Joined(parts) == name && AllPlain(parts) { SplitIsOnly(parts); }
  }

  lemma NoControlIff(name: string)
    ensures (forall c | c in name :: !IsControl(c)) <==> forall c | c in name :: 32 <= c as int < 127 || 160 <= c as int
  {
    forall c ensures IsControl(c) <==> !(32 <= c as int < 127 || 160 <= c as int) { ClassesAre(c); }
  }

  /**
   * A name is 1 to 200 characters without control characters, does not start with a dash, has no whitespace at
   * either end, and is made of segments with slashes between them that are neither empty nor `..`.
   */
  lemma ValidNameIff(name: string)
    ensures ValidName(name) <==>
              && 1 <= |name| <= 200
              && (forall c | c in name :: 32 <= c as int < 127 || 160 <= c as int)
              && name[0] != '-'
              && !IsWhitespace(name[0]) && !IsWhitespace(name[|name| - 1])
              && exists parts :: parts != [] && Joined(parts) == name && AllPlain(parts)
  {
    NoControlIff(name);
    if name != "" {
      TrimmedIff(name);
      SegmentsIff(name);
    }
  }
}
