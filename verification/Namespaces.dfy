/**
 From the namespaces array of config.json to the flags handed to clone: the parsing loop
 (src/oci/spec.c), the mapping in start (src/main.c), the OR-fold (src/container/namespaces.c)
 and SIGCHLD (src/container/process.c).
 */
module Namespaces {
  import opened SpecLists

  datatype Kind = Pid | Network | Ipc | Uts | MountNs | User | Cgroup

  const SIGCHLD: bv32 := 17

  /** ns_map */
  function CloneBit(k: Kind): bv32 {
    match k
    case Pid => 0x2000_0000
    case Network => 0x4000_0000
    case Ipc => 0x0800_0000
    case Uts => 0x0400_0000
    case MountNs => 0x0002_0000
    case User => 0x1000_0000
    case Cgroup => 0x0200_0000
  }

  function NameOf(k: Kind): string {
    match k
    case Pid => "pid"
    case Network => "network"
    case Ipc => "ipc"
    case Uts => "uts"
    case MountNs => "mount"
    case User => "user"
    case Cgroup => "cgroup"
  }

  predicate IsName(s: string) {
    s == "pid" || s == "network" || s == "ipc" || s == "uts" || s == "mount" || s == "user" || s == "cgroup"
  }

  /** The chain of strcmp in start; anything unknown stays at the zero value of the enum. */
  function KindOf(s: string): Kind {
    if s == "pid" then Pid
    else if s == "network" then Network
    else if s == "ipc" then Ipc
    else if s == "uts" then Uts
    else if s == "mount" then MountNs
    else if s == "user" then User
    else if s == "cgroup" then Cgroup
    else Pid
  }

  /** A type string stands for its kind; an unknown one stands for PID. */
  predicate Denotes(s: string, k: Kind) {
    s == NameOf(k) || (k == Pid && !IsName(s))
  }

  lemma NamesAreApart(s: string, k: Kind)
    ensures KindOf(s) == k <==> Denotes(s, k)
  {
    assert "pid"[0] == 'p' && "network"[0] == 'n' && "ipc"[0] == 'i' && "uts"[1] == 't' && "mount"[0] == 'm'
           && "user"[1] == 's' && "cgroup"[0] == 'c' && "uts"[0] == 'u' && "user"[0] == 'u';
  }

  datatype NsConfig = NsConfig(kind: Kind, hasPath: bool, enable: bool)

  // ---- bits ----

  predicate HasBit(flags: bv32, k: Kind) {
    flags & CloneBit(k) != 0
  }

  lemma Distribute(a: bv32, b: bv32, mask: bv32)
    ensures (a | b) & mask == (a & mask) | (b & mask)
  {
  }

  lemma OrIsZero(a: bv32, b: bv32)
    ensures a | b == 0 <==> a == 0 && b == 0
  {
  }

  lemma BitsAreApart(k: Kind, other: Kind)
    ensures CloneBit(k) & CloneBit(other) != 0 <==> k == other
    ensures CloneBit(k) & 0xFF == 0 && CloneBit(k) & OTHER_BITS == 0
  {
    match k { case Pid => case Network => case Ipc => case Uts => case MountNs => case User => case Cgroup => }
  }

  /** Neither a namespace bit nor in the low byte. */
  const OTHER_BITS: bv32 := 0x81FD_FF00

  lemma OrAddsOneBit(flags: bv32, k: Kind, other: Kind)
    ensures HasBit(flags | CloneBit(k), other) <==> HasBit(flags, other) || k == other
  {
    Distribute(flags, CloneBit(k), CloneBit(other));
    OrIsZero(flags & CloneBit(other), CloneBit(k) & CloneBit(other));
    BitsAreApart(k, other);
  }

  lemma OrKeepsMask(flags: bv32, k: Kind, mask: bv32)
    requires flags & mask == 0 && (mask == 0xFF || mask == OTHER_BITS)
    ensures (flags | CloneBit(k)) & mask == 0
  {
    Distribute(flags, CloneBit(k), mask);
    BitsAreApart(k, k);
    OrIsZero(flags & mask, CloneBit(k) & mask);
  }

  lemma NoBits(k: Kind)
    ensures !HasBit(0, k) && !HasBit(SIGCHLD, k)
  {
  }

  lemma SignalByte(flags: bv32, k: Kind)
    requires flags & 0xFF == 0 && flags & OTHER_BITS == 0
    ensures (SIGCHLD | flags) & 0xFF == SIGCHLD && (SIGCHLD | flags) & OTHER_BITS == 0
    ensures HasBit(SIGCHLD | flags, k) <==> HasBit(flags, k)
  {
    NoBits(k);
    Distribute(SIGCHLD, flags, CloneBit(k));
    Distribute(SIGCHLD, flags, 0xFF);
    Distribute(SIGCHLD, flags, OTHER_BITS);
    ZeroIsNeutral(flags & CloneBit(k));
    ZeroIsNeutral(SIGCHLD);
  }

  lemma ZeroIsNeutral(a: bv32)
    ensures 0 | a == a && a | 0 == a
  {
  }

  // ---- the three loops ----

  function Bits(flags: bv32): set<Kind> {
    set k | k in {Pid, Network, Ipc, Uts, MountNs, User, Cgroup} && HasBit(flags, k)
  }

  lemma BitsOf(flags: bv32, k: Kind)
    ensures k in Bits(flags) <==> HasBit(flags, k)
  {
  }

  lemma OrBits(flags: bv32, k: Kind)
    ensures Bits(flags | CloneBit(k)) == Bits(flags) + {k}
  {
    forall other ensures other in Bits(flags | CloneBit(k)) <==> other in Bits(flags) + {k} {
      OrAddsOneBit(flags, k, other);
      BitsOf(flags | CloneBit(k), other);
      BitsOf(flags, other);
    }
  }

  lemma ZeroBits()
    ensures Bits(0) == {}
  {
    forall k ensures k !in Bits(0) { NoBits(k); }
  }

  lemma SignalBits(flags: bv32)
    requires flags & 0xFF == 0 && flags & OTHER_BITS == 0
    ensures Bits(SIGCHLD | flags) == Bits(flags)
  {
    forall k ensures k in Bits(SIGCHLD | flags) <==> k in Bits(flags) {
      SignalByte(flags, k);
      BitsOf(SIGCHLD | flags, k);
      BitsOf(flags, k);
    }
  }

  /** The kinds that some configuration asks to create anew. */
  function Created(configs: seq<NsConfig>): set<Kind> {
    if configs == [] then {}
    else
      var c := configs[|configs| - 1];
      Created(configs[..|configs| - 1]) + (if c.enable && !c.hasPath then {c.kind} else {})
  }

  predicate OnlyKindBits(flags: bv32) {
    flags & 0xFF == 0 && flags & OTHER_BITS == 0
  }

  /** One turn of the fold. */
  method OrConfig(flags: bv32, c: NsConfig) returns (r: bv32)
    requires OnlyKindBits(flags)
    ensures Bits(r) == Bits(flags) + (if c.enable && !c.hasPath then {c.kind} else {})
    ensures OnlyKindBits(r)
  {
    if c.enable && !c.hasPath {
      OrBits(flags, c.kind);
      OrKeepsMask(flags, c.kind, 0xFF);
      OrKeepsMask(flags, c.kind, OTHER_BITS);
      return flags | CloneBit(c.kind);
    }
    r := flags;
  }

  /** nk_namespace_get_clone_flags */
  method GetCloneFlags(namespaces: seq<NsConfig>) returns (flags: bv32)
    ensures Bits(flags) == Created(namespaces) && OnlyKindBits(flags)
  {
    flags := 0;
    ZeroBits();
    for i := 0 to |namespaces|
      invariant Bits(flags) == Created(namespaces[..i]) && OnlyKindBits(flags)
    {
      assert namespaces[..i + 1][..i] == namespaces[..i];
      flags := OrConfig(flags, namespaces[i]);
    }
    assert namespaces[..|namespaces|] == namespaces;
  }

  /** An entry as the loop in parse_linux looks at it. */
  predicate IsNamespaceEntry(e: Entry) {
    |e.others| == 1 && e == NamespaceEntry(Namespace(e.required, e.others[0]))
  }

  /** No path is given, so the namespace is to be made anew. */
  predicate IsNew(e: Entry) {
    IsKept(e) && IsNamespaceEntry(e) && !e.others[0].Str?
  }

  predicate AsksFor(e: Entry, k: Kind) {
    IsNew(e) && Denotes(e.required.s, k)
  }

  /** Some entry of type k has no path. */
  ghost predicate WantsNew(entries: seq<Entry>, k: Kind) {
    exists e | e in entries :: AsksFor(e, k)
  }

  function ConfigOf(e: Entry): NsConfig {
    NsConfig(if e.required.Str? then KindOf(e.required.s) else Pid, |e.others| > 0 && e.others[0].Str?, true)
  }

  ghost predicate AllNamespaces(entries: seq<Entry>) {
    forall e | e in entries :: IsNamespaceEntry(e)
  }

  /** The mapping in start: every parsed namespace is enabled. */
  method MapNamespaces(out: array<Slot>, len: nat, ghost kept: seq<Entry>) returns (configs: seq<NsConfig>)
    requires len <= out.Length && ShowAll(out[..len], kept) && AllKept(kept) && AllNamespaces(kept)
    ensures |configs| == len
    ensures forall i | 0 <= i < len :: configs[i] == ConfigOf(kept[i])
  {
    configs := [];
    for i := 0 to len
      invariant |configs| == i
      invariant forall j | 0 <= j < i :: configs[j] == ConfigOf(kept[j])
    {
      assert kept[i] in kept && IsKept(kept[i]);
      assert Shows(out[..len][i], kept[i]);
      var slot := out[i];
      assert ShowsField(slot.ptrs[0], FieldsOf(kept[i])[0]) && ShowsField(slot.ptrs[1], FieldsOf(kept[i])[1]);
      configs := configs + [NsConfig(KindOf(slot.ptrs[0].s), slot.ptrs[1].Alloc?, true)];
    }
  }

  /** A namespace bit exactly for the kinds that are wanted, SIGCHLD in the low byte, nothing else. */
  ghost predicate IsMaskOf(flags: bv32, entries: seq<Entry>) {
    && flags & 0xFF == SIGCHLD && flags & OTHER_BITS == 0
    && forall k :: HasBit(flags, k) <==> WantsNew(entries, k)
  }

  /** Some entry has this type and no path. */
  ghost predicate NewNamed(ns: seq<Namespace>, name: string) {
    exists n | n in ns :: n.kind == Str(name) && !n.path.Str?
  }

  /** Some entry has a type that none of the other six names is, and no path. */
  ghost predicate NewPidOrUnknown(ns: seq<Namespace>) {
    exists n | n in ns ::
      && n.kind.Str? && !n.path.Str?
      && n.kind.s != "network" && n.kind.s != "ipc" && n.kind.s != "uts"
      && n.kind.s != "mount" && n.kind.s != "user" && n.kind.s != "cgroup"
  }

  /** The seven flags of clone, each told by its number and the word in the configuration; the
      signal of the child's death in the low byte; and nothing else. */
  ghost predicate IsCloneMask(flags: bv32, ns: seq<Namespace>) {
    && flags & 0xFF == 17 && flags & 0x81FD_FF00 == 0
    && (flags & 0x4000_0000 != 0 <==> NewNamed(ns, "network"))
    && (flags & 0x0800_0000 != 0 <==> NewNamed(ns, "ipc"))
    && (flags & 0x0400_0000 != 0 <==> NewNamed(ns, "uts"))
    && (flags & 0x0002_0000 != 0 <==> NewNamed(ns, "mount"))
    && (flags & 0x1000_0000 != 0 <==> NewNamed(ns, "user"))
    && (flags & 0x0200_0000 != 0 <==> NewNamed(ns, "cgroup"))
    && (flags & 0x2000_0000 != 0 <==> NewPidOrUnknown(ns))
  }

  /** For every array in which no entry without a type precedes one with a type, the flags handed
      to clone have a namespace bit exactly when some entry of that type has no path. */
  method CloneFlags(heap: Heap, ns: seq<Namespace>) returns (flags: bv32)
    requires heap.Valid() && forall i, j | 0 <= i < j < |ns| && !ns[i].kind.Str? :: !ns[j].kind.Str?
    modifies heap
    ensures IsCloneMask(flags, ns)
    ensures IsMaskOf(flags, NamespaceEntries(ns))
  {
    ghost var entries := NamespaceEntries(ns);
    TypesDecide(ns);
    var out, len := heap.ParseList(NamespaceEntries(ns));
    ghost var kept := Kept(entries);
    assert out[..][..len] == out[..len];
    CompactIff(out[..], entries);
    KeptEntries(entries);
    var configs := MapNamespaces(out, len, kept);
    var bits := GetCloneFlags(configs);
    flags := SIGCHLD | bits;
    PipelineBits(kept, configs, bits);
    KeptMask(flags, entries);
    MaskInNumbers(flags, ns);
  }

  /** The mask in the words of the configuration and the numbers of the kernel. */
  lemma MaskInNumbers(flags: bv32, ns: seq<Namespace>)
    requires IsMaskOf(flags, NamespaceEntries(ns))
    ensures IsCloneMask(flags, ns)
  {
    BitInNumbers(flags, ns, Network);
    BitInNumbers(flags, ns, Ipc);
    BitInNumbers(flags, ns, Uts);
    BitInNumbers(flags, ns, MountNs);
    BitInNumbers(flags, ns, User);
    BitInNumbers(flags, ns, Cgroup);
    BitInNumbers(flags, ns, Pid);
    PidWants(ns);
    OtherBits(flags);
  }

  lemma BitInNumbers(flags: bv32, ns: seq<Namespace>, k: Kind)
    requires IsMaskOf(flags, NamespaceEntries(ns))
    ensures flags & CloneBit(k) != 0 <==> exists n | n in ns :: AsksFor(NamespaceEntry(n), k)
    ensures k != Pid ==> (flags & CloneBit(k) != 0 <==> NewNamed(ns, NameOf(k)))
  {
    var entries := NamespaceEntries(ns);
    MaskBit(flags, entries, k);
    assert forall e | e in entries :: exists n | n in ns :: e == NamespaceEntry(n) by {
      forall e | e in entries ensures exists n | n in ns :: e == NamespaceEntry(n) {
        var i :| 0 <= i < |entries| && entries[i] == e;
        assert ns[i] in ns;
      }
    }
    forall n | n in ns ensures NamespaceEntry(n) in entries {
      var i :| 0 <= i < |ns| && ns[i] == n;
      assert entries[i] == NamespaceEntry(n);
    }
  }

  lemma PidWants(ns: seq<Namespace>)
    ensures (exists n | n in ns :: AsksFor(NamespaceEntry(n), Pid)) <==> NewPidOrUnknown(ns)
  {
    forall n ensures AsksFor(NamespaceEntry(n), Pid) <==>
      && n.kind.Str? && !n.path.Str?
      && n.kind.s != "network" && n.kind.s != "ipc" && n.kind.s != "uts"
      && n.kind.s != "mount" && n.kind.s != "user" && n.kind.s != "cgroup"
    {
      assert "pid"[0] == 'p' && "network"[0] == 'n' && "ipc"[0] == 'i' && "uts"[0] == 'u'
             && "mount"[0] == 'm' && "user"[0] == 'u' && "cgroup"[0] == 'c';
    }
  }

  lemma OtherBits(flags: bv32)
    requires flags & 0xFF == SIGCHLD && flags & OTHER_BITS == 0
    ensures flags & 0xFF == 17 && flags & 0x81FD_FF00 == 0
  {
  }

  lemma {:induction false} KeptEntries(entries: seq<Entry>)
    ensures forall e :: e in Kept(entries) <==> e in entries && IsKept(e)
    ensures AllKept(Kept(entries)) && (AllNamespaces(entries) ==> AllNamespaces(Kept(entries)))
  {
    if entries != [] {
      KeptEntries(entries[1..]);
      assert forall e | e in entries :: e == entries[0] || e in entries[1..];
    }
    forall i | 0 <= i < |Kept(entries)| ensures IsKept(Kept(entries)[i]) {
      assert Kept(entries)[i] in Kept(entries);
    }
  }

  lemma KeptMask(flags: bv32, entries: seq<Entry>)
    requires IsMaskOf(flags, Kept(entries))
    ensures IsMaskOf(flags, entries)
  {
    KeptEntries(entries);
    forall k ensures HasBit(flags, k) <==> WantsNew(entries, k) {
      assert HasBit(flags, k) <==> WantsNew(Kept(entries), k);
    }
  }

  /** start compares the type of each counted entry with strcmp; all of these are strings
      exactly when no skipped entry precedes a kept one. */
  lemma TypesAreThereIff(slots: seq<Slot>, entries: seq<Entry>)
    requires Placed(slots, entries)
    ensures |Kept(entries)| <= |slots|
    ensures (forall i | 0 <= i < |Kept(entries)| :: slots[i].ptrs != [] && slots[i].ptrs[0].Alloc?) <==>
            NoSkipBeforeKept(entries)
  {
    KeptAreFirst(entries);
    var n := |Kept(entries)|;
    forall i | 0 <= i < n ensures slots[i].ptrs != [] && slots[i].ptrs[0].Alloc? <==> IsKept(entries[..n][i]) {
      if IsKept(entries[i]) {
        assert ShowsField(slots[i].ptrs[0], FieldsOf(entries[i])[0]);
      }
    }
  }

  // ---- unknown type strings ----

  ghost predicate WantsByName(entries: seq<Entry>, k: Kind) {
    exists e | e in entries :: IsNew(e) && e.required.s == NameOf(k)
  }

  /** Every bit means what its name says exactly if every new namespace of an unknown type comes with a new
      PID namespace that is asked for by name. */
  lemma MaskIsByNameIff(flags: bv32, entries: seq<Entry>)
    requires IsMaskOf(flags, entries)
    ensures (forall k :: HasBit(flags, k) <==> WantsByName(entries, k)) <==>
            ((exists e | e in entries :: IsNew(e) && !IsName(e.required.s)) ==> WantsByName(entries, Pid))
  {
    forall k ensures k != Pid ==> (WantsNew(entries, k) <==> WantsByName(entries, k)) {}
    assert WantsByName(entries, Pid) ==> WantsNew(entries, Pid) by {
      if WantsByName(entries, Pid) {
        var e :| e in entries && IsNew(e) && e.required.s == NameOf(Pid);
        assert AsksFor(e, Pid);
      }
    }
    if e :| e in entries && IsNew(e) && !IsName(e.required.s) {
      assert AsksFor(e, Pid);
      assert HasBit(flags, Pid);
    }
  }

  lemma PipelineBits(entries: seq<Entry>, configs: seq<NsConfig>, bits: bv32)
    requires |configs| == |entries| && AllKept(entries) && AllNamespaces(entries)
    requires forall i | 0 <= i < |entries| :: configs[i] == ConfigOf(entries[i])
    requires Bits(bits) == Created(configs) && OnlyKindBits(bits)
    ensures forall k :: HasBit(SIGCHLD | bits, k) <==> WantsNew(entries, k)
    ensures (SIGCHLD | bits) & 0xFF == SIGCHLD && (SIGCHLD | bits) & OTHER_BITS == 0
  {
    var flags := SIGCHLD | bits;
    SignalByte(bits, Pid);
    SignalBits(bits);
    forall k ensures HasBit(flags, k) <==> WantsNew(entries, k) {
      BitsOf(flags, k);
      CreatedIff(entries, configs, k);
    }
  }

  lemma {:induction false} CreatedIff(entries: seq<Entry>, configs: seq<NsConfig>, k: Kind)
    requires |configs| == |entries| && AllKept(entries) && AllNamespaces(entries)
    requires forall i | 0 <= i < |entries| :: configs[i] == ConfigOf(entries[i])
    ensures k in Created(configs) <==> WantsNew(entries, k)
  {
    if entries != [] {
      var n := |entries| - 1;
      var init, e := entries[..n], entries[n];
      assert AllNamespaces(init) by { assert forall x | x in init :: x in entries; }
      CreatedIff(init, configs[..n], k);
      assert e in entries && IsKept(e);
      NamesAreApart(e.required.s, k);
      assert entries == init + [e];
      WantsSnoc(init, e, k);
    }
  }

  lemma WantsSnoc(entries: seq<Entry>, e: Entry, k: Kind)
    ensures WantsNew(entries + [e], k) <==> WantsNew(entries, k) || AsksFor(e, k)
  {
    var all := entries + [e];
    assert forall x :: x in all <==> x in entries || x == e;
  }

  /** A single entry of an unknown type makes a PID namespace that nobody named. */
  lemma UnknownMakesPid(flags: bv32)
    requires IsMaskOf(flags, NamespaceEntries([Namespace(Str("time"), Absent)]))
    ensures HasBit(flags, Pid) && !WantsByName(NamespaceEntries([Namespace(Str("time"), Absent)]), Pid)
  {
    var entries := NamespaceEntries([Namespace(Str("time"), Absent)]);
    assert "time"[0] == 't' && "pid"[0] == 'p' && "network"[0] == 'n' && "ipc"[0] == 'i' && "uts"[0] == 'u'
           && "mount"[0] == 'm' && "user"[0] == 'u' && "cgroup"[0] == 'c';
    assert entries[0] in entries && AsksFor(entries[0], Pid);
  }

  // ---- order and repetition ----

  /** Arrays with the same entries, in any order and any number, have the same mask. */
  lemma OrderDoesNotMatter(a: seq<Entry>, b: seq<Entry>, flagsA: bv32, flagsB: bv32)
    requires forall e :: e in a <==> e in b
    requires IsMaskOf(flagsA, a) && IsMaskOf(flagsB, b)
    ensures flagsA == flagsB
  {
    SameWish(a, b, flagsA, flagsB, Pid);
    SameWish(a, b, flagsA, flagsB, Network);
    SameWish(a, b, flagsA, flagsB, Ipc);
    SameWish(a, b, flagsA, flagsB, Uts);
    SameWish(a, b, flagsA, flagsB, MountNs);
    SameWish(a, b, flagsA, flagsB, User);
    SameWish(a, b, flagsA, flagsB, Cgroup);
    SevenBits(flagsA, flagsB);
  }

  lemma SameWish(a: seq<Entry>, b: seq<Entry>, flagsA: bv32, flagsB: bv32, k: Kind)
    requires forall e :: e in a <==> e in b
    requires IsMaskOf(flagsA, a) && IsMaskOf(flagsB, b)
    ensures flagsA & CloneBit(k) != 0 <==> flagsB & CloneBit(k) != 0
  {
    MaskBit(flagsA, a, k);
    MaskBit(flagsB, b, k);
    SameWants(a, b, k);
  }

  lemma MaskBit(flags: bv32, entries: seq<Entry>, k: Kind)
    requires IsMaskOf(flags, entries)
    ensures flags & CloneBit(k) != 0 <==> WantsNew(entries, k)
  {
    assert HasBit(flags, k) <==> WantsNew(entries, k);
  }

  lemma SameWants(a: seq<Entry>, b: seq<Entry>, k: Kind)
    requires forall e :: e in a <==> e in b
    ensures WantsNew(a, k) <==> WantsNew(b, k)
  {
  }

  lemma SevenBits(a: bv32, b: bv32)
    requires a & 0xFF == b & 0xFF && a & OTHER_BITS == 0 && b & OTHER_BITS == 0
    requires a & 0x2000_0000 != 0 <==> b & 0x2000_0000 != 0
    requires a & 0x4000_0000 != 0 <==> b & 0x4000_0000 != 0
    requires a & 0x0800_0000 != 0 <==> b & 0x0800_0000 != 0
    requires a & 0x0400_0000 != 0 <==> b & 0x0400_0000 != 0
    requires a & 0x0002_0000 != 0 <==> b & 0x0002_0000 != 0
    requires a & 0x1000_0000 != 0 <==> b & 0x1000_0000 != 0
    requires a & 0x0200_0000 != 0 <==> b & 0x0200_0000 != 0
    ensures a == b
  {
  }
}
