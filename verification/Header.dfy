/** The plaintext vault header: framing, validation and slot ids (crates/wcm-core/src/vault/header.rs). */
module Header {
  import opened Basics
  import opened Sorting
  import opened Slots

  /** `b"WCM\x01"` */
  const MAGIC: Bytes := [0x57, 0x43, 0x4d, 0x01]
  const FORMAT_VERSION: Byte := 1
  const BODY_CIPHER := "xchacha20poly1305"
  const MAX_HEADER_LEN := 1024 * 1024
  const PREFIX_LEN := 8

  datatype Header = Header(
    v: Byte,
    vaultId: Bytes,
    created: string,
    generation: nat,
    slots: seq<KeySlot>,
    bodyCipher: string,
    bodyNonce: Bytes)

  /** `Header::new`: generation 0, the nonce is filled in by the writer. */
  function NewHeader(vid: VaultId, created: string, slots: seq<KeySlot>): Header {
    Header(FORMAT_VERSION, vid, created, 0, slots, BODY_CIPHER, seq(NONCE_LEN, _ => 0))
  }

  function Ids(slots: seq<KeySlot>): seq<int> { seq(|slots|, i requires 0 <= i < |slots| => slots[i].id) }

  function Labels(slots: seq<KeySlot>): seq<string> { seq(|slots|, i requires 0 <= i < |slots| => slots[i].slotLabel) }

  /** `Header::validate`; it sorts copies of the ids and labels, drops neighbours and compares lengths. */
  function Validate(h: Header): Result<()> {
    if h.v != FORMAT_VERSION then Err(Integrity("unsupported header version"))
    else if |h.vaultId| != VAULT_ID_LEN then Err(Integrity("vault_id must be 16 bytes"))
    else if h.bodyCipher != BODY_CIPHER then Err(Integrity("unsupported body cipher"))
    else if |h.bodyNonce| != NONCE_LEN then Err(Integrity("body nonce must be 24 bytes"))
    else if h.slots == [] then Err(Integrity("vault has no key slots"))
    else if |Dedup(Sort(IntLeq, Ids(h.slots)))| != |h.slots| then Err(Integrity("duplicate slot ids"))
    else if |Dedup(Sort(StrLeq, Labels(h.slots)))| != |h.slots| then Err(Integrity("duplicate slot labels"))
    else Ok(())
  }

  ghost predicate DistinctIds(slots: seq<KeySlot>) {
    forall i, j | 0 <= i < j < |slots| :: slots[i].id != slots[j].id
  }

  ghost predicate DistinctLabels(slots: seq<KeySlot>) {
    forall i, j | 0 <= i < j < |slots| :: slots[i].slotLabel != slots[j].slotLabel
  }

  /** What `validate` is for. */
  ghost predicate ValidHeader(h: Header) {
    && h.v == FORMAT_VERSION
    && |h.vaultId| == VAULT_ID_LEN
    && h.bodyCipher == BODY_CIPHER
    && |h.bodyNonce| == NONCE_LEN
    && h.slots != []
    && DistinctIds(h.slots)
    && DistinctLabels(h.slots)
  }

  lemma ValidateIff(h: Header)
    ensures Validate(h).Ok? <==> ValidHeader(h)
  {
    var ids, labels := Ids(h.slots), Labels(h.slots);
    StrLeqOrder();
    SortDedupDecidesDistinct(IntLeq, ids);
    SortDedupDecidesDistinct(StrLeq, labels);
    if DistinctIds(h.slots) {
      forall i, j | 0 <= i < j < |ids| ensures ids[i] != ids[j] { assert h.slots[i].id != h.slots[j].id; }
    }
    if Distinct(ids) {
      forall i, j | 0 <= i < j < |ids| ensures h.slots[i].id != h.slots[j].id { assert ids[i] != ids[j]; }
    }
    if DistinctLabels(h.slots) {
      forall i, j | 0 <= i < j < |labels| ensures labels[i] != labels[j] {
        assert h.slots[i].slotLabel != h.slots[j].slotLabel;
      }
    }
    if Distinct(labels) {
      forall i, j | 0 <= i < j < |labels| ensures h.slots[i].slotLabel != h.slots[j].slotLabel {
        assert labels[i] != labels[j];
      }
    }
  }

  // ---------------------------------------------------------------------------
  // Slot ids
  // ---------------------------------------------------------------------------

  predicate IdUsed(slots: seq<KeySlot>, id: int) {
    exists i | 0 <= i < |slots| :: slots[i].id == id
  }

  /** `(1..=u8::MAX).find(..)`: shared by `next_slot_id` and `first_free_id`. */
  function FirstFreeFrom(slots: seq<KeySlot>, id: int): (r: Result<Byte>)
    requires 1 <= id <= 256
    ensures r.Ok? ==> id <= r.value && !IdUsed(slots, r.value) && forall k | id <= k < r.value :: IdUsed(slots, k)
    ensures r.Err? ==> r.error.Invalid? && forall k | id <= k <= 255 :: IdUsed(slots, k)
    decreases 256 - id
  {
    if id == 256 then Err(Invalid("no free slot id"))
    else if !IdUsed(slots, id) then Ok(id)
    else FirstFreeFrom(slots, id + 1)
  }

  function FirstFreeId(slots: seq<KeySlot>): Result<Byte> { FirstFreeFrom(slots, 1) }

  lemma {:induction false} UsedIdsBound(slots: seq<KeySlot>, ids: set<int>)
    requires forall k | k in ids :: IdUsed(slots, k)
    ensures |ids| <= |slots|
  {
    if slots == [] {
      assert ids == {} by {
        forall k ensures k !in ids { assert k in ids ==> IdUsed(slots, k); }
      }
    } else {
      var x: int := slots[0].id;
      forall k | k in ids - {x} ensures IdUsed(slots[1..], k) {
        var i :| 0 <= i < |slots| && slots[i].id == k;
        assert slots[1..][i - 1].id == k;
      }
      UsedIdsBound(slots[1..], ids - {x});
      assert ids <= (ids - {x}) + {x};
    }
  }

  /** The ids 1 to n. */
  ghost function IdsUpTo(n: nat): (s: set<int>)
    ensures |s| == n && forall k :: k in s <==> 1 <= k <= n
  {
    if n == 0 then {} else IdsUpTo(n - 1) + {n}
  }

  /** The search returns the least unused id in 1..255 and fails exactly when every one of them is taken. */
  lemma FirstFreeIdIsLeast(slots: seq<KeySlot>)
    ensures FirstFreeId(slots).Ok? <==> exists k | 1 <= k <= 255 :: !IdUsed(slots, k)
    ensures FirstFreeId(slots).Ok? ==>
              var id := FirstFreeId(slots).value;
              1 <= id && !IdUsed(slots, id) && forall k | 1 <= k <= 255 && !IdUsed(slots, k) :: id <= k
    ensures FirstFreeId(slots).Err? ==> 255 <= |slots|
  {
    if FirstFreeId(slots).Err? {
      UsedIdsBound(slots, IdsUpTo(255));
    }
  }

  /** Adding a slot with the found id and an unused label keeps ids and labels distinct. */
  lemma AppendKeepsDistinct(slots: seq<KeySlot>, slot: KeySlot)
    requires DistinctIds(slots) && DistinctLabels(slots)
    requires !IdUsed(slots, slot.id) && forall s | s in slots :: s.slotLabel != slot.slotLabel
    ensures DistinctIds(slots + [slot]) && DistinctLabels(slots + [slot])
  {
  }

  // ---------------------------------------------------------------------------
  // Framing
  // ---------------------------------------------------------------------------

  /** Stands for the CBOR library: any encoder with a decoder that undoes it. */
  datatype Codec = Codec(enc: Header -> Bytes, dec: Bytes -> Option<Header>)

  ghost predicate Lawful(c: Codec) {
    forall h :: c.dec(c.enc(h)) == Some(h)
  }

  function Pow256(k: nat): nat {
    if k == 0 then 1 else 256 * Pow256(k - 1)
  }

  /** `n` in `k` bytes, lowest first. */
  function ToLe(n: nat, k: nat): (b: Bytes)
    requires n < Pow256(k)
    ensures |b| == k && FromLe(b) == n
  {
    if k == 0 then [] else [n % 256] + ToLe(n / 256, k - 1)
  }

  function FromLe(b: Bytes): nat {
    if b == [] then 0 else b[0] as nat + 256 * FromLe(b[1..])
  }

  /** `u32::to_le_bytes` */
  function ToLe32(n: nat): (b: Bytes)
    requires n < 0x1_0000_0000
    ensures |b| == 4 && FromLe(b) == n
  {
    assert Pow256(2) == 0x1_0000;
    assert Pow256(4) == 0x1_0000_0000;
    ToLe(n, 4)
  }

  function Encode(c: Codec, h: Header): Result<Bytes> {
    var _ :- Validate(h);
    var cbor := c.enc(h);
    if |cbor| > MAX_HEADER_LEN then Err(Integrity("header too large"))
    else Ok(MAGIC + ToLe32(|cbor|) + cbor)
  }

  function Decode(c: Codec, bytes: Bytes): Result<(Header, nat)> {
    if |bytes| < PREFIX_LEN then Err(Integrity("file too short"))
    else if bytes[..4] != MAGIC then
      if bytes[..3] == MAGIC[..3] then Err(Integrity("unsupported vault format version"))
      else Err(Integrity("not a wcm vault"))
    else
      var len := FromLe(bytes[4..8]);
      if len > MAX_HEADER_LEN then Err(Integrity("header length out of range"))
      else
        var end := PREFIX_LEN + len;
        if |bytes| < end then Err(Integrity("truncated header"))
        else
          match c.dec(bytes[PREFIX_LEN..end])
          case None => Err(Integrity("header decode"))
          case Some(h) =>
            var _ :- Validate(h);
            Ok((h, end))
  }

  /** A header followed by any ciphertext reads back as that header, and the cut is where it ended. */
  lemma DecodeEncode(c: Codec, h: Header, rest: Bytes)
    requires Lawful(c) && Encode(c, h).Ok?
    ensures Decode(c, Encode(c, h).value + rest) == Ok((h, |Encode(c, h).value|))
  {
    var prefix := Encode(c, h).value;
    var cbor := c.enc(h);
    var bytes := prefix + rest;
    assert bytes[..4] == MAGIC;
    assert bytes[4..8] == ToLe32(|cbor|);
    assert bytes[PREFIX_LEN..PREFIX_LEN + |cbor|] == cbor;
  }

  /** The authenticated prefix determines the header, so equal associated data means equal headers. */
  lemma EncodeInjective(c: Codec, h: Header, h': Header, rest: Bytes, rest': Bytes)
    requires Lawful(c) && Encode(c, h).Ok? && Encode(c, h').Ok?
    requires Encode(c, h).value + rest == Encode(c, h').value + rest'
    ensures h == h' && rest == rest'
  {
    DecodeEncode(c, h, rest);
    DecodeEncode(c, h', rest');
    var p, p' := Encode(c, h).value, Encode(c, h').value;
    assert (p + rest)[|p|..] == rest && (p' + rest')[|p'|..] == rest';
  }

  /** Everything `decode` accepts is a validated header that fits its bounds. */
  lemma DecodeSound(c: Codec, bytes: Bytes)
    requires Decode(c, bytes).Ok?
    ensures var (h, end) := Decode(c, bytes).value;
            && ValidHeader(h)
            && PREFIX_LEN <= end <= |bytes| && end <= PREFIX_LEN + MAX_HEADER_LEN
            && c.dec(bytes[PREFIX_LEN..end]) == Some(h)
  {
    ValidateIff(Decode(c, bytes).value.0);
  }

  /** `Header::slot` */
  function SlotByLabel(slots: seq<KeySlot>, slotLabel: string): Option<KeySlot> {
    if slots == [] then None
    else if slots[0].slotLabel == slotLabel then Some(slots[0])
    else SlotByLabel(slots[1..], slotLabel)
  }

  // ---------------------------------------------------------------------------
  // Byte by byte
  // ---------------------------------------------------------------------------

  /** `validate` with its constants written out; whatever it refuses it calls damaged. */
  lemma ValidateTable(h: Header)
    ensures Validate(h).Ok? <==>
              && h.v == 1 && |h.vaultId| == 16 && h.bodyCipher == "xchacha20poly1305" && |h.bodyNonce| == 24
              && h.slots != [] && DistinctIds(h.slots) && DistinctLabels(h.slots)
    ensures Validate(h).Err? ==> Validate(h).error.Integrity?
  {
    ValidateIff(h);
  }

  lemma ToLe32Is(n: nat)
    requires n < 0x1_0000_0000
    ensures ToLe32(n) == [n % 0x100, n / 0x100 % 0x100, n / 0x1_0000 % 0x100, n / 0x100_0000]
  {
    assert Pow256(3) == 0x100_0000 && Pow256(2) == 0x1_0000 && Pow256(1) == 0x100;
    assert ToLe(n / 0x100_0000, 1) == [n / 0x100_0000] + ToLe(n / 0x1_0000_0000, 0);
    assert ToLe(n / 0x1_0000, 2) == [n / 0x1_0000 % 0x100] + ToLe(n / 0x100_0000, 1);
    assert ToLe(n / 0x100, 3) == [n / 0x100 % 0x100] + ToLe(n / 0x1_0000, 2);
  }

  /** `encode` succeeds exactly for a valid header of at most 1 MiB, and lays out magic, length and header. */
  lemma EncodeIff(c: Codec, h: Header)
    ensures Encode(c, h).Ok? <==> ValidHeader(h) && |c.enc(h)| <= 1048576
    ensures Encode(c, h).Err? ==> Encode(c, h).error.Integrity?
    ensures Encode(c, h).Ok? ==>
              var n := |c.enc(h)|;
              Encode(c, h).value
                == [0x57, 0x43, 0x4d, 0x01] + [n % 0x100, n / 0x100 % 0x100, n / 0x1_0000 % 0x100, n / 0x100_0000]
                 + c.enc(h)
  {
    ValidateTable(h);
    if |c.enc(h)| <= 1048576 { ToLe32Is(|c.enc(h)|); }
  }

  /** The number four bytes write, lowest first. */
  function Number(b: Bytes): nat
    requires |b| == 4
  {
    b[0] as nat + 0x100 * b[1] as nat + 0x1_0000 * b[2] as nat + 0x100_0000 * b[3] as nat
  }

  lemma FromLeIs(b: Bytes)
    requires |b| == 4
    ensures FromLe(b) == Number(b)
  {
    assert b[1..][1..] == b[2..] && b[2..][1..] == b[3..] && b[3..][1..] == [];
    assert FromLe(b[3..]) == b[3] as nat + 0x100 * FromLe([]);
    assert FromLe(b[2..]) == b[2] as nat + 0x100 * FromLe(b[3..]);
  }

  /** `decode` accepts exactly a prefix of this layout with a valid header in it. */
  lemma DecodeIff(c: Codec, bytes: Bytes, h: Header, end: nat)
    ensures Decode(c, bytes) == Ok((h, end)) <==>
              && 8 <= |bytes| && bytes[..4] == [0x57, 0x43, 0x4d, 0x01]
              && var n := Number(bytes[4..8]);
                 && n <= 1048576 && end == 8 + n && end <= |bytes|
                 && c.dec(bytes[8..end]) == Some(h) && ValidHeader(h)
    ensures Decode(c, bytes).Err? ==> Decode(c, bytes).error.Integrity?
  {
    if 8 <= |bytes| { FromLeIs(bytes[4..8]); }
    ValidateTable(h);
    if 8 <= |bytes| && FromLe(bytes[4..8]) <= 1048576 && 8 + FromLe(bytes[4..8]) <= |bytes| {
      var d := c.dec(bytes[8..8 + FromLe(bytes[4..8])]);
      if d.Some? { ValidateTable(d.value); }
    }
  }
}
