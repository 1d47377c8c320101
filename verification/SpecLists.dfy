/**
 How src/oci/spec.c turns the namespaces and mounts arrays of config.json into C arrays, and
 how it gives the memory back.

 The parsing loops store an entry at the index it has in the JSON array but count only the
 entries they keep. Whether that goes well depends on what precedes what.
 */
module SpecLists {

  /** A member of a JSON object, as far as the loops look: absent, a string, or something else. */
  datatype Field = Absent | Str(s: string) | NotString

  /** One array entry; the required member must be a string for the entry to be kept. */
  datatype Entry = Members(required: Field, others: seq<Field>)

  function FieldsOf(e: Entry): seq<Field> {
    [e.required] + e.others
  }

  /** An entry of linux.namespaces. */
  datatype Namespace = Namespace(kind: Field, path: Field)

  /** An entry of mounts. */
  datatype MountObject = MountObject(destination: Field, kind: Field, source: Field, options: Options)

  datatype Options = NoArray | Array(options: seq<Field>)

  function NamespaceEntry(n: Namespace): Entry {
    Members(n.kind, [n.path])
  }

  /** An options array is one allocation more than its strings. */
  function MountEntry(m: MountObject): Entry {
    Members(m.destination, [m.kind, m.source] + (if m.options.Array? then m.options.options + [Str("")] else []))
  }

  function NamespaceEntries(ns: seq<Namespace>): (entries: seq<Entry>)
    ensures |entries| == |ns| && forall i | 0 <= i < |ns| :: entries[i] == NamespaceEntry(ns[i])
  {
    seq(|ns|, i requires 0 <= i < |ns| => NamespaceEntry(ns[i]))
  }

  function MountEntries(ms: seq<MountObject>): (entries: seq<Entry>)
    ensures |entries| == |ms| && forall i | 0 <= i < |ms| :: entries[i] == MountEntry(ms[i])
  {
    seq(|ms|, i requires 0 <= i < |ms| => MountEntry(ms[i]))
  }

  datatype Ptr = Null | Alloc(addr: nat, s: string)

  /** The fields of one C struct; all NULL is written Fields([]). */
  datatype Slot = Fields(ptrs: seq<Ptr>)

  predicate IsKept(e: Entry) {
    e.required.Str?
  }

  /** The entries that are kept, in order. */
  function Kept(entries: seq<Entry>): seq<Entry> {
    if entries == [] then [] else (if IsKept(entries[0]) then [entries[0]] else []) + Kept(entries[1..])
  }

  /** A slot shows an entry if its pointers lead to the strings of the entry's members. */
  predicate Shows(slot: Slot, e: Entry) {
    var fields := FieldsOf(e);
    |slot.ptrs| == |fields| && forall k | 0 <= k < |fields| :: ShowsField(slot.ptrs[k], fields[k])
  }

  predicate ShowsField(p: Ptr, f: Field) {
    match f
    case Str(s) => p.Alloc? && p.s == s
    case Absent => p == Null
    case NotString => p == Null
  }

  predicate ShowAll(slots: seq<Slot>, entries: seq<Entry>) {
    |slots| == |entries| && forall i | 0 <= i < |entries| :: Shows(slots[i], entries[i])
  }

  /** What the parsing loop leaves: kept entries at their own index, nothing elsewhere. */
  predicate Placed(slots: seq<Slot>, entries: seq<Entry>) {
    |slots| == |entries| && forall i | 0 <= i < |entries| ::
      if IsKept(entries[i]) then Shows(slots[i], entries[i]) else slots[i] == Fields([])
  }

  lemma PlacedSnoc(slots: seq<Slot>, entries: seq<Entry>, slot: Slot, e: Entry)
    requires Placed(slots, entries)
    requires if IsKept(e) then Shows(slot, e) else slot == Fields([])
    ensures Placed(slots + [slot], entries + [e])
  {
  }

  predicate NoSkipBeforeKept(entries: seq<Entry>) {
    forall i, j | 0 <= i < j < |entries| && !IsKept(entries[i]) :: !IsKept(entries[j])
  }

  // ---- counting ----

  lemma {:induction false} KeptAppend(a: seq<Entry>, b: seq<Entry>)
    ensures Kept(a + b) == Kept(a) + Kept(b)
  {
    if a == [] {
      assert a + b == b;
    } else {
      assert (a + b)[1..] == a[1..] + b && (a + b)[0] == a[0];
      KeptAppend(a[1..], b);
    }
  }

  predicate AllKept(a: seq<Entry>) {
    forall i | 0 <= i < |a| :: IsKept(a[i])
  }

  predicate NoneKept(a: seq<Entry>) {
    forall i | 0 <= i < |a| :: !IsKept(a[i])
  }

  lemma {:induction false} KeptAll(a: seq<Entry>)
    ensures |Kept(a)| <= |a|
    ensures |Kept(a)| == |a| <==> AllKept(a)
    ensures |Kept(a)| == |a| ==> Kept(a) == a
    ensures |Kept(a)| == 0 <==> NoneKept(a)
  {
    if a != [] {
      var rest := a[1..];
      KeptAll(rest);
      assert forall i | 0 < i < |a| :: a[i] == rest[i - 1];
      assert forall i | 0 <= i < |rest| :: rest[i] == a[i + 1];
    }
  }

  /** The places up to the count are all kept entries exactly when there is none after them. */
  lemma KeptFill(entries: seq<Entry>)
    ensures |Kept(entries)| <= |entries|
    ensures var n := |Kept(entries)|; AllKept(entries[..n]) <==> NoneKept(entries[n..])
    ensures var n := |Kept(entries)|; AllKept(entries[..n]) ==> Kept(entries) == entries[..n]
  {
    KeptAll(entries);
    var n := |Kept(entries)|;
    assert entries == entries[..n] + entries[n..];
    KeptAppend(entries[..n], entries[n..]);
    KeptAll(entries[..n]);
    KeptAll(entries[n..]);
  }

  lemma SkipsLast(entries: seq<Entry>, n: nat)
    requires n <= |entries| && AllKept(entries[..n]) && NoneKept(entries[n..])
    ensures NoSkipBeforeKept(entries)
  {
    forall i | 0 <= i < |entries| ensures IsKept(entries[i]) <==> i < n {
      if i < n { assert entries[i] == entries[..n][i]; } else { assert entries[i] == entries[n..][i - n]; }
    }
  }

  lemma SkipFirst(entries: seq<Entry>, n: nat)
    requires n <= |entries| && !AllKept(entries[..n]) && !NoneKept(entries[n..])
    ensures !NoSkipBeforeKept(entries)
  {
    var i :| 0 <= i < n && !IsKept(entries[..n][i]);
    var j :| 0 <= j < |entries| - n && IsKept(entries[n..][j]);
    assert !IsKept(entries[i]) && IsKept(entries[n + j]);
  }

  /** The kept entries fill the first places exactly when no skipped entry comes before a kept one. */
  lemma KeptAreFirst(entries: seq<Entry>)
    ensures |Kept(entries)| <= |entries|
    ensures NoSkipBeforeKept(entries) <==> AllKept(entries[..|Kept(entries)|])
    ensures NoSkipBeforeKept(entries) <==> NoneKept(entries[|Kept(entries)|..])
    ensures NoSkipBeforeKept(entries) ==> Kept(entries) == entries[..|Kept(entries)|]
  {
    KeptFill(entries);
    var n := |Kept(entries)|;
    if AllKept(entries[..n]) {
      SkipsLast(entries, n);
    } else {
      SkipFirst(entries, n);
    }
  }

  /** The first `len` slots are the well-typed entries in order exactly when no skipped entry
      precedes a kept one. */
  lemma CompactIff(slots: seq<Slot>, entries: seq<Entry>)
    requires Placed(slots, entries)
    ensures |Kept(entries)| <= |slots|
    ensures ShowAll(slots[..|Kept(entries)|], Kept(entries)) <==> NoSkipBeforeKept(entries)
  {
    KeptAreFirst(entries);
    var n := |Kept(entries)|;
    if ShowAll(slots[..n], Kept(entries)) {
      forall i | 0 <= i < n ensures IsKept(entries[..n][i]) {
        assert Shows(slots[..n][i], Kept(entries)[i]);
      }
    }
  }

  // ---- who owns what ----

  /** The addresses some pointers hold. */
  function Held(ptrs: seq<Ptr>): set<nat> {
    if ptrs == [] then {} else Held(ptrs[..|ptrs| - 1]) + AddrOf(ptrs[|ptrs| - 1])
  }

  function AddrOf(p: Ptr): set<nat> {
    if p.Alloc? then {p.addr} else {}
  }

  function Owned(slots: seq<Slot>): set<nat> {
    if slots == [] then {} else Owned(slots[..|slots| - 1]) + Held(slots[|slots| - 1].ptrs)
  }

  /** No address twice. */
  predicate Apart(ptrs: seq<Ptr>) {
    ptrs == [] || (Apart(ptrs[..|ptrs| - 1]) && Held(ptrs[..|ptrs| - 1]) !! AddrOf(ptrs[|ptrs| - 1]))
  }

  predicate AllApart(slots: seq<Slot>) {
    slots == [] ||
    (var init, last := slots[..|slots| - 1], slots[|slots| - 1];
     AllApart(init) && Apart(last.ptrs) && Owned(init) !! Held(last.ptrs))
  }

  predicate Within(addrs: set<nat>, lo: nat, hi: nat) {
    lo <= hi && forall x | x in addrs :: lo <= x < hi
  }

  lemma HeldSnoc(ptrs: seq<Ptr>, p: Ptr)
    ensures Held(ptrs + [p]) == Held(ptrs) + AddrOf(p)
    ensures Apart(ptrs + [p]) <==> Apart(ptrs) && Held(ptrs) !! AddrOf(p)
  {
    assert (ptrs + [p])[..|ptrs|] == ptrs;
  }

  lemma OwnedSnoc(slots: seq<Slot>, slot: Slot)
    ensures Owned(slots + [slot]) == Owned(slots) + Held(slot.ptrs)
    ensures AllApart(slots + [slot]) <==> AllApart(slots) && Apart(slot.ptrs) && Owned(slots) !! Held(slot.ptrs)
  {
    assert (slots + [slot])[..|slots|] == slots;
  }

  lemma {:induction false} HeldPrefix(ptrs: seq<Ptr>, n: nat)
    requires n <= |ptrs| && Apart(ptrs)
    ensures Held(ptrs[..n]) <= Held(ptrs) && Apart(ptrs[..n])
  {
    if n == |ptrs| {
      assert ptrs[..n] == ptrs;
    } else {
      var init := ptrs[..|ptrs| - 1];
      HeldPrefix(init, n);
      assert init[..n] == ptrs[..n];
    }
  }

  lemma {:induction false} OwnedPrefix(slots: seq<Slot>, n: nat)
    requires n <= |slots| && AllApart(slots)
    ensures Owned(slots[..n]) <= Owned(slots) && AllApart(slots[..n])
  {
    if n == |slots| {
      assert slots[..n] == slots;
    } else {
      var init := slots[..|slots| - 1];
      OwnedPrefix(init, n);
      assert init[..n] == slots[..n];
    }
  }

  lemma {:induction false} HeldFirst(ptrs: seq<Ptr>)
    requires ptrs != [] && ptrs[0].Alloc?
    ensures Held(ptrs) != {}
  {
    if |ptrs| > 1 {
      HeldFirst(ptrs[..|ptrs| - 1]);
    }
  }

  lemma SlotHeld(slot: Slot, e: Entry)
    requires if IsKept(e) then Shows(slot, e) else slot == Fields([])
    ensures Held(slot.ptrs) != {} <==> IsKept(e)
  {
    if IsKept(e) {
      assert ShowsField(slot.ptrs[0], FieldsOf(e)[0]);
      HeldFirst(slot.ptrs);
    }
  }

  predicate NothingFrom(slots: seq<Slot>, n: nat) {
    forall i | n <= i < |slots| :: Held(slots[i].ptrs) == {}
  }

  /** No slot shares with another, so the first n hold everything exactly if the rest hold nothing. */
  lemma {:induction false} OwnedBeyond(slots: seq<Slot>, n: nat)
    requires AllApart(slots) && n <= |slots|
    ensures Owned(slots) == Owned(slots[..n]) <==> NothingFrom(slots, n)
  {
    if n == |slots| {
      assert slots[..n] == slots;
    } else {
      var init, last := slots[..|slots| - 1], slots[|slots| - 1];
      OwnedBeyond(init, n);
      OwnedPrefix(init, n);
      assert init[..n] == slots[..n];
      NothingSnoc(init, last, n);
      assert slots == init + [last];
    }
  }

  lemma NothingSnoc(init: seq<Slot>, last: Slot, n: nat)
    requires n <= |init|
    ensures NothingFrom(init + [last], n) <==> NothingFrom(init, n) && Held(last.ptrs) == {}
  {
    var all := init + [last];
    assert all[|init|] == last && forall i | 0 <= i < |init| :: all[i] == init[i];
  }

  /** Freeing the first n slots gives everything back exactly if no later entry was kept. */
  lemma LeakedBeyond(slots: seq<Slot>, entries: seq<Entry>, n: nat)
    requires Placed(slots, entries) && AllApart(slots) && n <= |slots|
    ensures Owned(slots) == Owned(slots[..n]) <==> NoneKept(entries[n..])
  {
    OwnedBeyond(slots, n);
    forall i | n <= i < |slots| ensures Held(slots[i].ptrs) == {} <==> !IsKept(entries[n..][i - n]) {
      SlotHeld(slots[i], entries[i]);
    }
    NothingIffNone(slots, entries[n..], n);
  }

  lemma NothingIffNone(slots: seq<Slot>, rest: seq<Entry>, n: nat)
    requires |slots| == n + |rest|
    requires forall i | n <= i < |slots| :: Held(slots[i].ptrs) == {} <==> !IsKept(rest[i - n])
    ensures NothingFrom(slots, n) <==> NoneKept(rest)
  {
    if NothingFrom(slots, n) {
      forall k | 0 <= k < |rest| ensures !IsKept(rest[k]) {
        assert Held(slots[n + k].ptrs) == {};
      }
    }
  }

  /** What the parsing loop has done after some entries, with addresses lo..hi handed out. */
  ghost predicate Parsed(slots: seq<Slot>, entries: seq<Entry>, len: nat, lo: nat, hi: nat) {
    Placed(slots, entries) && len == |Kept(entries)| && AllApart(slots) && Within(Owned(slots), lo, hi)
  }

  lemma ParsedSnoc(slots: seq<Slot>, entries: seq<Entry>, slot: Slot, e: Entry, lo: nat, mid: nat, hi: nat)
    requires Parsed(slots, entries, |Kept(entries)|, lo, mid)
    requires if IsKept(e) then Shows(slot, e) else slot == Fields([])
    requires Apart(slot.ptrs) && Within(Held(slot.ptrs), mid, hi)
    ensures Parsed(slots + [slot], entries + [e], |Kept(entries)| + (if IsKept(e) then 1 else 0), lo, hi)
    ensures Owned(slots + [slot]) == Owned(slots) + Held(slot.ptrs)
  {
    OwnedSnoc(slots, slot);
    KeptAppend(entries, [e]);
    PlacedSnoc(slots, entries, slot, e);
  }

  // ---- the C heap ----

  class Heap {
    var live: set<nat>
    var next: nat

    constructor ()
      ensures Valid() && live == {}
    {
      live, next := {}, 0;
    }

    ghost predicate Valid()
      reads this
    {
      forall p | p in live :: p < next
    }

    method Strdup(s: string) returns (p: Ptr)
      requires Valid()
      modifies this
      ensures Valid() && p == Alloc(old(next), s) && live == old(live) + {old(next)} && next == old(next) + 1
    {
      p := Alloc(next, s);
      live, next := live + {next}, next + 1;
    }

    /** free: NULL is ignored; anything else must be live, so nothing is ever freed twice. */
    method Free(p: Ptr)
      requires Valid() && AddrOf(p) <= live
      modifies this`live
      ensures Valid() && live == old(live) - AddrOf(p)
    {
      if p.Alloc? { live := live - {p.addr}; }
    }

    /** Duplicate the string members of one entry. */
    method FillSlot(e: Entry) returns (slot: Slot)
      requires Valid()
      modifies this
      ensures Valid() && Shows(slot, e) && Apart(slot.ptrs)
      ensures Within(Held(slot.ptrs), old(next), next) && live == old(live) + Held(slot.ptrs)
    {
      var fields, ptrs := FieldsOf(e), [];
      for k := 0 to |fields|
        invariant Valid() && |ptrs| == k && Apart(ptrs)
        invariant forall m | 0 <= m < k :: ShowsField(ptrs[m], fields[m])
        invariant Within(Held(ptrs), old(next), next) && live == old(live) + Held(ptrs)
      {
        var p := Null;
        if fields[k].Str? {
          p := Strdup(fields[k].s);
        }
        HeldSnoc(ptrs, p);
        ptrs := ptrs + [p];
      }
      slot := Fields(ptrs);
    }

    /** One turn of the parsing loop. */
    method ParseEntry(
      out: array<Slot>, i: nat, e: Entry, len: nat, ghost before: seq<Entry>, ghost lo: nat, ghost others: set<nat>)
      returns (count: nat)
      requires Valid() && i < out.Length && out[i] == Fields([])
      requires Parsed(out[..i], before, len, lo, next) && live == others + Owned(out[..i])
      modifies this, out
      ensures Valid() && forall k | 0 <= k < out.Length && k != i :: out[k] == old(out[k])
      ensures Parsed(out[..i + 1], before + [e], count, lo, next)
      ensures live == others + Owned(out[..i + 1])
    {
      ghost var done, mid := out[..i], next;
      count := len;
      if IsKept(e) {
        var slot := FillSlot(e);
        out[i] := slot;
        count := len + 1;
      }
      ParsedSnoc(done, before, out[i], e, lo, mid, next);
      assert out[..i + 1] == done + [out[i]];
    }

    /** The parsing loop. */
    method ParseList(entries: seq<Entry>) returns (out: array<Slot>, len: nat)
      requires Valid()
      modifies this
      ensures Valid() && fresh(out)
      ensures Placed(out[..], entries) && len == |Kept(entries)| <= |entries|
      ensures AllApart(out[..]) && Within(Owned(out[..]), old(next), next) && live == old(live) + Owned(out[..])
    {
      out := new Slot[|entries|](_ => Fields([]));
      len := 0;
      for i := 0 to |entries|
        invariant Valid()
        invariant forall k | i <= k < out.Length :: out[k] == Fields([])
        invariant Parsed(out[..i], entries[..i], len, old(next), next)
        invariant live == old(live) + Owned(out[..i])
      {
        assert entries[..i + 1] == entries[..i] + [entries[i]];
        len := ParseEntry(out, i, entries[i], len, entries[..i], old(next), old(live));
      }
      assert out[..|entries|] == out[..] && entries[..|entries|] == entries;
      KeptAll(entries);
    }

    /** nk_oci_spec_free: the first `len` entries. */
    method FreeList(out: array<Slot>, len: nat)
      requires Valid() && len <= out.Length
      requires AllApart(out[..len]) && Owned(out[..len]) <= live
      modifies this`live
      ensures Valid() && live == old(live) - Owned(out[..len])
    {
      for i := 0 to len
        invariant Valid() && live == old(live) - Owned(out[..i])
      {
        OwnedPrefix(out[..len], i + 1);
        assert out[..len][..i + 1] == out[..i] + [out[i]] == out[..i + 1];
        OwnedSnoc(out[..i], out[i]);
        FreeSlot(out[i].ptrs);
      }
    }

    method FreeSlot(ptrs: seq<Ptr>)
      requires Valid() && Apart(ptrs) && Held(ptrs) <= live
      modifies this`live
      ensures Valid() && live == old(live) - Held(ptrs)
    {
      for j := 0 to |ptrs|
        invariant Valid() && live == old(live) - Held(ptrs[..j])
      {
        HeldPrefix(ptrs, j + 1);
        assert ptrs[..j + 1] == ptrs[..j] + [ptrs[j]];
        HeldSnoc(ptrs[..j], ptrs[j]);
        Free(ptrs[j]);
      }
      assert ptrs[..|ptrs|] == ptrs;
    }

    /** Parse and free again: every allocation is given back exactly when no skipped entry
        precedes a kept one; otherwise exactly what is stored beyond the count is leaked. */
    method ParseAndFree(entries: seq<Entry>) returns (ghost leaked: set<nat>)
      requires Valid()
      modifies this
      ensures live == old(live) + leaked && leaked !! old(live)
      ensures leaked == {} <==> NoSkipBeforeKept(entries)
    {
      var out, len := ParseList(entries);
      ghost var slots := out[..];
      OwnedPrefix(slots, len);
      assert slots[..len] == out[..len];
      FreeList(out, len);
      leaked := Owned(slots) - Owned(slots[..len]);
      LeakedBeyond(slots, entries, len);
      KeptAreFirst(entries);
    }

    /** The namespaces array, in its own terms: nothing leaks exactly when no entry without a type
        precedes one with a type. */
    method ParseAndFreeNamespaces(ns: seq<Namespace>) returns (ghost leaked: set<nat>)
      requires Valid()
      modifies this
      ensures live == old(live) + leaked && leaked !! old(live)
      ensures leaked == {} <==> forall i, j | 0 <= i < j < |ns| && !ns[i].kind.Str? :: !ns[j].kind.Str?
    {
      leaked := ParseAndFree(NamespaceEntries(ns));
      TypesDecide(ns);
    }

    /** The mounts array: the same for entries with and without a destination. */
    method ParseAndFreeMounts(ms: seq<MountObject>) returns (ghost leaked: set<nat>)
      requires Valid()
      modifies this
      ensures live == old(live) + leaked && leaked !! old(live)
      ensures leaked == {} <==> forall i, j | 0 <= i < j < |ms| && !ms[i].destination.Str? :: !ms[j].destination.Str?
    {
      leaked := ParseAndFree(MountEntries(ms));
      DestinationsDecide(ms);
    }
  }

  lemma TypesDecide(ns: seq<Namespace>)
    ensures NoSkipBeforeKept(NamespaceEntries(ns)) <==>
            forall i, j | 0 <= i < j < |ns| && !ns[i].kind.Str? :: !ns[j].kind.Str?
  {
    var entries := NamespaceEntries(ns);
    assert forall i | 0 <= i < |ns| :: IsKept(entries[i]) <==> ns[i].kind.Str?;
  }

  lemma DestinationsDecide(ms: seq<MountObject>)
    ensures NoSkipBeforeKept(MountEntries(ms)) <==>
            forall i, j | 0 <= i < j < |ms| && !ms[i].destination.Str? :: !ms[j].destination.Str?
  {
    var entries := MountEntries(ms);
    assert forall i | 0 <= i < |ms| :: IsKept(entries[i]) <==> ms[i].destination.Str?;
  }

  /** The members of one mounts entry in their order: destination, type, source, and of an options
      array each string and the array itself. */
  predicate HoldsMount(slot: Slot, m: MountObject) {
    && |slot.ptrs| >= 3
    && ShowsField(slot.ptrs[0], m.destination) && ShowsField(slot.ptrs[1], m.kind) && ShowsField(slot.ptrs[2], m.source)
    && match m.options
       case NoArray => |slot.ptrs| == 3
       case Array(options) =>
         && |slot.ptrs| == 4 + |options| && slot.ptrs[3 + |options|].Alloc?
         && forall k | 0 <= k < |options| :: ShowsField(slot.ptrs[3 + k], options[k])
  }

  /** Each entry with a destination is found whole at its own index. */
  lemma MountsAreWhole(slots: seq<Slot>, ms: seq<MountObject>)
    requires Placed(slots, MountEntries(ms))
    ensures forall i | 0 <= i < |ms| && ms[i].destination.Str? :: HoldsMount(slots[i], ms[i])
  {
    forall i | 0 <= i < |ms| && ms[i].destination.Str? ensures HoldsMount(slots[i], ms[i]) {
      assert IsKept(MountEntries(ms)[i]) && Shows(slots[i], MountEntry(ms[i]));
      MountIsWhole(slots[i], ms[i]);
    }
  }

  lemma MountIsWhole(slot: Slot, m: MountObject)
    requires Shows(slot, MountEntry(m))
    ensures HoldsMount(slot, m)
  {
    var fields := FieldsOf(MountEntry(m));
    assert fields[0] == m.destination && fields[1] == m.kind && fields[2] == m.source;
    assert ShowsField(slot.ptrs[0], fields[0]) && ShowsField(slot.ptrs[1], fields[1]);
    assert ShowsField(slot.ptrs[2], fields[2]);
    if m.options.Array? {
      var options := m.options.options;
      assert fields[3 + |options|] == Str("");
      assert ShowsField(slot.ptrs[3 + |options|], fields[3 + |options|]);
      forall k | 0 <= k < |options| ensures ShowsField(slot.ptrs[3 + k], options[k]) {
        assert fields[3 + k] == options[k] && ShowsField(slot.ptrs[3 + k], fields[3 + k]);
      }
    }
  }

  /** One entry without a type before one with a type: the counted slot is empty, and the string
      that was kept lies beyond the count. */
  lemma {:induction false} SkippedFirst(slots: seq<Slot>)
    requires Placed(slots, NamespaceEntries([Namespace(Absent, Absent), Namespace(Str("pid"), Absent)]))
    requires AllApart(slots)
    ensures var entries := NamespaceEntries([Namespace(Absent, Absent), Namespace(Str("pid"), Absent)]);
            && |Kept(entries)| == 1 && slots[0] == Fields([])
            && !ShowAll(slots[..1], Kept(entries)) && Owned(slots) != Owned(slots[..1])
  {
    var ns := [Namespace(Absent, Absent), Namespace(Str("pid"), Absent)];
    var entries := NamespaceEntries(ns);
    assert !IsKept(entries[0]) && IsKept(entries[1]);
    assert entries == [entries[0]] + [entries[1]];
    KeptAppend([entries[0]], [entries[1]]);
    KeptAll([entries[0]]);
    KeptAll([entries[1]]);
    CompactIff(slots, entries);
    LeakedBeyond(slots, entries, 1);
    assert entries[1..][0] == entries[1];
  }
}
