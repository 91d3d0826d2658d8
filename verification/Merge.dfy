/** Combining imported items with a body (crates/wcm-core/src/export.rs). */
module Merge {
  import opened Basics
  import opened Chars
  import opened Body

  datatype MergeMode = Merge | Overwrite | Replace

  datatype MergeReport = MergeReport(added: nat, overwritten: nat, skipped: nat)

  predicate ValidFieldName(name: string) {
    && 1 <= |name| <= 64
    && forall c | c in name :: IsAsciiLower(c) || IsAsciiUpper(c) || IsAsciiDigit(c) || c in "_.-"
  }

  predicate ValidNotes(notes: string) {
    forall c | c in notes :: !IsControl(c) || c in "\n\r\t"
  }

  predicate ValidTag(tag: string) {
    tag != "" && forall c | c in tag :: !IsControl(c)
  }

  /** `validate_incoming` succeeds. */
  predicate ValidIncoming(item: Item) {
    && ValidName(item.name)
    && (forall k | k in item.fields :: ValidFieldName(k))
    && ValidNotes(item.notes)
    && (forall t | t in item.tags :: ValidTag(t))
  }

  ghost predicate AllValid(incoming: seq<Item>) {
    forall i | 0 <= i < |incoming| :: ValidIncoming(incoming[i])
  }

  function Start(body: VaultBody, mode: MergeMode): VaultBody {
    if mode.Replace? then VaultBody([], body.settings) else body
  }

  /** The body and counters after taking in one more item. */
  function Take(out: VaultBody, report: MergeReport, item: Item, mode: MergeMode): (VaultBody, MergeReport)
  {
    var present := Get(out, item.name).Some?;
    if present && mode.Merge? then
      (out, report.(skipped := report.skipped + 1))
    else
      var next := WithItems(out, Without(out.items, item.name) + [item]);
      if present && mode.Overwrite? then (next, report.(overwritten := report.overwritten + 1))
      else (next, report.(added := report.added + 1))
  }

  ghost function TakeAll(out: VaultBody, report: MergeReport, incoming: seq<Item>, mode: MergeMode)
    : (VaultBody, MergeReport)
  {
    if incoming == [] then (out, report)
    else
      var n := |incoming| - 1;
      var (o, r) := TakeAll(out, report, incoming[..n], mode);
      Take(o, r, incoming[n], mode)
  }

  const NO_CHANGES := MergeReport(0, 0, 0)

  /** Merges `incoming` into `body`; every item is validated before anything is changed. */
  method MergeItems(body: VaultBody, incoming: seq<Item>, mode: MergeMode)
    returns (res: Result<(VaultBody, MergeReport)>)
    ensures res.Ok? <==> AllValid(incoming)
    ensures res.Err? ==> res.error.Format?
    ensures res.Ok? ==> res.value == TakeAll(Start(body, mode), NO_CHANGES, incoming, mode)
  {
    for i := 0 to |incoming|
      invariant forall j | 0 <= j < i :: ValidIncoming(incoming[j])
    {
      if !ValidIncoming(incoming[i]) {
        return Err(Format("invalid item"));
      }
    }
    var out := Start(body, mode);
    var report := NO_CHANGES;
    for i := 0 to |incoming|
      invariant (out, report) == TakeAll(Start(body, mode), NO_CHANGES, incoming[..i], mode)
    {
      var item := incoming[i];
      TakeAllNext(Start(body, mode), NO_CHANGES, incoming, i, mode);
      out, report := TakeItem(out, report, item, mode);
    }
    assert incoming[..|incoming|] == incoming;
    res := Ok((out, report));
  }

  /** The body of the second loop. */
  method TakeItem(out: VaultBody, report: MergeReport, item: Item, mode: MergeMode)
    returns (out': VaultBody, report': MergeReport)
    requires ValidIncoming(item)
    ensures (out', report') == Take(out, report, item, mode)
  {
    out', report' := out, report;
    var present := Get(out, item.name).Some?;
    if present && mode.Merge? {
      report' := report.(skipped := report.skipped + 1);
    } else {
      InsertValid(out, item);
      out' := Insert(out, item, true).value;
      if present && mode.Overwrite? {
        report' := report.(overwritten := report.overwritten + 1);
      } else {
        report' := report.(added := report.added + 1);
      }
    }
  }

  lemma InsertValid(out: VaultBody, item: Item)
    requires ValidIncoming(item)
    ensures Insert(out, item, true) == Ok(WithItems(out, Without(out.items, item.name) + [item]))
  {
  }

  lemma TakeAllNext(out: VaultBody, report: MergeReport, incoming: seq<Item>, i: nat, mode: MergeMode)
    requires i < |incoming|
    ensures var (o, r) := TakeAll(out, report, incoming[..i], mode);
            TakeAll(out, report, incoming[..i + 1], mode) == Take(o, r, incoming[i], mode)
  {
    assert incoming[..i + 1][..i] == incoming[..i];
  }

  // ---------------------------------------------------------------------------
  // The three modes as map merges
  // ---------------------------------------------------------------------------

  ghost predicate FirstWith(incoming: seq<Item>, n: string, i: int) {
    0 <= i < |incoming| && incoming[i].name == n && forall j | 0 <= j < i :: incoming[j].name != n
  }

  ghost predicate LastWith(incoming: seq<Item>, n: string, i: int) {
    0 <= i < |incoming| && incoming[i].name == n && forall j | i < j < |incoming| :: incoming[j].name != n
  }

  ghost function IncomingNames(incoming: seq<Item>): set<string> {
    set i | 0 <= i < |incoming| :: incoming[i].name
  }

  /** Existing entries win, then the earliest incoming one. */
  ghost predicate FirstWinsUnion(m: map<string, Item>, incoming: seq<Item>, r: map<string, Item>) {
    && r.Keys == m.Keys + IncomingNames(incoming)
    && (forall n | n in m :: r[n] == m[n])
    && (forall n, i | n !in m && FirstWith(incoming, n, i) :: r[n] == incoming[i])
  }

  /** The latest incoming entry wins, then the existing one. */
  ghost predicate LastWinsUnion(m: map<string, Item>, incoming: seq<Item>, r: map<string, Item>) {
    && r.Keys == m.Keys + IncomingNames(incoming)
    && (forall n, i | LastWith(incoming, n, i) :: r[n] == incoming[i])
    && (forall n | n in m && n !in IncomingNames(incoming) :: r[n] == m[n])
  }

  lemma TakeOne(out: VaultBody, report: MergeReport, item: Item, mode: MergeMode)
    requires Canonical(out) && ValidName(item.name)
    ensures var (o, r) := Take(out, report, item, mode);
            && Canonical(o) && o.settings == out.settings
            && Contents(o)
                 == (if mode.Merge? && item.name in Contents(out) then Contents(out)
                     else Contents(out)[item.name := item])
            && r == (if item.name !in Contents(out) || mode.Replace? then report.(added := report.added + 1)
                     else if mode.Merge? then report.(skipped := report.skipped + 1)
                     else report.(overwritten := report.overwritten + 1))
  {
    FindIsLookup(out.items, item.name);
    InsertIsMapUpdate(out, item, true);
  }

  lemma PrefixNames(incoming: seq<Item>)
    requires incoming != []
    ensures var n := |incoming| - 1;
            IncomingNames(incoming) == IncomingNames(incoming[..n]) + {incoming[n].name}
  {
  }

  lemma FirstWinsStep(m: map<string, Item>, incoming: seq<Item>, r: map<string, Item>)
    requires incoming != [] && FirstWinsUnion(m, incoming[..|incoming| - 1], r)
    ensures var item := incoming[|incoming| - 1];
            FirstWinsUnion(m, incoming, if item.name in r then r else r[item.name := item])
  {
    var n := |incoming| - 1;
    var p, item := incoming[..n], incoming[n];
    PrefixNames(incoming);
    var r' := if item.name in r then r else r[item.name := item];
    forall x, i | x !in m && FirstWith(incoming, x, i) ensures x in r' && r'[x] == incoming[i] {
      if i < n {
        assert FirstWith(p, x, i);
        assert x in IncomingNames(p) by { assert p[i].name == x; }
      } else {
        assert x !in IncomingNames(p) by {
          forall j | 0 <= j < |p| ensures p[j].name != x { assert incoming[j].name != x; }
        }
      }
    }
  }

  lemma LastWinsStep(m: map<string, Item>, incoming: seq<Item>, r: map<string, Item>)
    requires incoming != [] && LastWinsUnion(m, incoming[..|incoming| - 1], r)
    ensures var item := incoming[|incoming| - 1];
            LastWinsUnion(m, incoming, r[item.name := item])
  {
    var n := |incoming| - 1;
    var p, item := incoming[..n], incoming[n];
    PrefixNames(incoming);
    var r' := r[item.name := item];
    forall x, i | LastWith(incoming, x, i) ensures x in r' && r'[x] == incoming[i] {
      if i < n {
        assert incoming[n].name != x;
        assert LastWith(p, x, i);
        assert x in IncomingNames(p) by { assert p[i].name == x; }
      }
    }
  }

  lemma {:induction false} MergeKeepsExisting(out: VaultBody, incoming: seq<Item>)
    requires Canonical(out) && AllValid(incoming)
    ensures var (o, r) := TakeAll(out, NO_CHANGES, incoming, MergeMode.Merge);
            && Canonical(o) && o.settings == out.settings
            && FirstWinsUnion(Contents(out), incoming, Contents(o))
            && r.overwritten == 0
            && r.added + r.skipped == |incoming|
            && |Contents(o)| == |Contents(out)| + r.added
  {
    if incoming != [] {
      var n := |incoming| - 1;
      MergeKeepsExisting(out, incoming[..n]);
      var (o, r) := TakeAll(out, NO_CHANGES, incoming[..n], MergeMode.Merge);
      TakeOne(o, r, incoming[n], MergeMode.Merge);
      FirstWinsStep(Contents(out), incoming, Contents(o));
    }
  }

  lemma {:induction false} OverwriteTakesLast(out: VaultBody, incoming: seq<Item>, mode: MergeMode)
    requires Canonical(out) && AllValid(incoming) && !mode.Merge?
    ensures var (o, r) := TakeAll(out, NO_CHANGES, incoming, mode);
            && Canonical(o) && o.settings == out.settings
            && LastWinsUnion(Contents(out), incoming, Contents(o))
            && r.skipped == 0
            && r.added + r.overwritten == |incoming|
            && (mode.Overwrite? ==> |Contents(o)| == |Contents(out)| + r.added)
            && (mode.Replace? ==> r.added == |incoming|)
  {
    if incoming != [] {
      var n := |incoming| - 1;
      OverwriteTakesLast(out, incoming[..n], mode);
      var (o, r) := TakeAll(out, NO_CHANGES, incoming[..n], mode);
      TakeOne(o, r, incoming[n], mode);
      LastWinsStep(Contents(out), incoming, Contents(o));
      assert incoming[n].name in Contents(o) ==> Contents(o)[incoming[n].name := incoming[n]].Keys == Contents(o).Keys;
    }
  }

  /**
   * What `import` promises: the merge refuses exactly the documents with an invalid item, the three
   * modes are the three map merges, and the report accounts for every incoming item.
   */
  lemma MergeRefinesMaps(body: VaultBody, incoming: seq<Item>, mode: MergeMode)
    requires Canonical(body) && AllValid(incoming)
    ensures var (o, r) := TakeAll(Start(body, mode), NO_CHANGES, incoming, mode);
            && Canonical(o) && o.settings == body.settings
            && r.added + r.overwritten + r.skipped == |incoming|
            && (match mode
                case Merge =>
                  && FirstWinsUnion(Contents(body), incoming, Contents(o))
                  && r.overwritten == 0 && |o.items| == |body.items| + r.added
                case Overwrite =>
                  && LastWinsUnion(Contents(body), incoming, Contents(o))
                  && r.skipped == 0 && |o.items| == |body.items| + r.added
                case Replace =>
                  && LastWinsUnion(map[], incoming, Contents(o))
                  && r.added == |incoming| && |o.items| == |IncomingNames(incoming)|)
  {
    var start := Start(body, mode);
    var (o, r) := TakeAll(start, NO_CHANGES, incoming, mode);
    if mode.Merge? { MergeKeepsExisting(start, incoming); } else { OverwriteTakesLast(start, incoming, mode); }
    MapSize(start.items);
    MapSize(o.items);
    if mode.Replace? { assert Contents(o).Keys == IncomingNames(incoming); }
  }

  lemma DistinctSnoc(incoming: seq<Item>)
    requires incoming != []
    ensures var n := |incoming| - 1;
            NamesDistinct(incoming) <==>
              && NamesDistinct(incoming[..n])
              && incoming[n].name !in IncomingNames(incoming[..n])
  {
  }

  lemma {:induction false} NameCount(incoming: seq<Item>)
    ensures |IncomingNames(incoming)| <= |incoming|
    ensures |IncomingNames(incoming)| == |incoming| <==> NamesDistinct(incoming)
  {
    if incoming == [] {
      assert IncomingNames(incoming) == {};
    } else {
      var n := |incoming| - 1;
      var names, x := IncomingNames(incoming[..n]), incoming[n].name;
      NameCount(incoming[..n]);
      PrefixNames(incoming);
      DistinctSnoc(incoming);
      if x in names { assert names + {x} == names; } else { assert |names + {x}| == |names| + 1; }
    }
  }

  /** `--replace` reports every item as added, which is the size of the result only without repeated names. */
  lemma ReplaceReportIsSizeIff(body: VaultBody, incoming: seq<Item>)
    requires Canonical(body) && AllValid(incoming)
    ensures var (o, r) := TakeAll(Start(body, Replace), NO_CHANGES, incoming, Replace);
            r.added == |incoming| && (|o.items| == r.added <==> NamesDistinct(incoming))
  {
    MergeRefinesMaps(body, incoming, Replace);
    OverwriteTakesLast(Start(body, Replace), incoming, Replace);
    NameCount(incoming);
  }

  // ---------------------------------------------------------------------------
  // What may come in
  // ---------------------------------------------------------------------------

  predicate Printable(c: char) { 32 <= c as int < 127 || 160 <= c as int }

  /**
   * An incoming item is accepted if and only if its name is valid, its field names are 1 to 64 letters, digits,
   * underscores, dots and dashes, its notes have no control characters but tab, line feed and carriage return,
   * and its tags are not empty and have none at all.
   */
  lemma ValidIncomingIff(item: Item)
    ensures ValidIncoming(item) <==>
              && ValidName(item.name)
              && (forall k | k in item.fields :: 1 <= |k| <= 64 && forall c | c in k :: FieldChar(c))
              && (forall c | c in item.notes :: Printable(c) || c as int in {9, 10, 13})
              && (forall t | t in item.tags :: t != "" && forall c | c in t :: Printable(c))
  {
    forall c ensures IsControl(c) <==> !Printable(c) { ClassesAre(c); }
    forall c ensures FieldChar(c) <==> IsAsciiLower(c) || IsAsciiUpper(c) || IsAsciiDigit(c) || c in "_.-" {}
    assert forall c :: c in "\n\r\t" <==> c as int in {9, 10, 13};
  }

  /** `A` to `Z`, `a` to `z`, `0` to `9`, underscore, dot and dash, by code point. */
  predicate FieldChar(c: char) {
    65 <= c as int <= 90 || 97 <= c as int <= 122 || 48 <= c as int <= 57 || c as int in {95, 46, 45}
  }
}
