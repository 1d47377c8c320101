/**
 Annotations as NUL-terminated "key=value" buffers, and the lookup that compares a prefix and
 then looks at one character (src/oci/spec.c).
 */
module Annotations {
  import opened Records

  const NUL := '\0'

  datatype Value = Text(s: string) | NotText

  /** A member of the annotations object. JSON strings hold no NUL. */
  datatype Annotation = Annotation(key: string, value: Value)

  predicate Clean(a: Annotation) {
    NUL !in a.key && (a.value.Text? ==> NUL !in a.value.s)
  }

  function Encoded(key: string, value: string): string {
    key + "=" + value
  }

  /** The members that are kept: those with a string value, in order. */
  function Texts(obj: seq<Annotation>): seq<string> {
    if obj == [] then []
    else Texts(obj[..|obj| - 1]) +
         (var a := obj[|obj| - 1]; if a.value.Text? then [Encoded(a.key, a.value.s)] else [])
  }

  predicate HoldsString(buf: array<char>, s: string)
    reads buf
  {
    buf[..] == s + [NUL]
  }

  predicate HoldAll(bufs: seq<array<char>>, texts: seq<string>)
    reads bufs
  {
    |bufs| == |texts| && forall i | 0 <= i < |bufs| :: HoldsString(bufs[i], texts[i])
  }

  // ---- encoding ----

  /** Copy a string into a buffer, as sprintf does for each %s. */
  method Put(buf: array<char>, off: nat, s: string)
    requires off + |s| <= buf.Length
    modifies buf
    ensures buf[..off] == old(buf[..off]) && buf[off..off + |s|] == s
    ensures buf[off + |s|..] == old(buf[off + |s|..])
  {
    for i := 0 to |s|
      invariant buf[..off] == old(buf[..off]) && buf[off..off + i] == s[..i]
      invariant buf[off + |s|..] == old(buf[off + |s|..])
    {
      buf[off + i] := s[i];
    }
  }

  /** The buffer fits exactly: every character, the separator and the NUL, and no more. */
  method Encode(key: string, value: string) returns (buf: array<char>)
    ensures fresh(buf) && buf.Length == |key| + |value| + 2
    ensures HoldsString(buf, Encoded(key, value))
  {
    buf := new char[|key| + |value| + 2];
    Put(buf, 0, key);
    Put(buf, |key|, "=");
    assert buf[..|key| + 1] == key + "=" by { assert buf[..|key|] == buf[0..|key|]; }
    Put(buf, |key| + 1, value);
    buf[|key| + |value| + 1] := NUL;
    assert buf[..] == buf[..|key| + 1] + buf[|key| + 1..|key| + 1 + |value|] + [NUL];
  }

  method EncodeAll(obj: seq<Annotation>) returns (bufs: seq<array<char>>)
    ensures HoldAll(bufs, Texts(obj))
  {
    bufs := [];
    for i := 0 to |obj|
      invariant HoldAll(bufs, Texts(obj[..i]))
    {
      assert obj[..i + 1][..i] == obj[..i];
      if obj[i].value.Text? {
        var ann := Encode(obj[i].key, obj[i].value.s);
        bufs := bufs + [ann];
      }
    }
    assert obj[..|obj|] == obj;
  }

  // ---- lookup ----

  /** strncmp(buf, key, strlen(key)) == 0: it stops at the first difference or at a NUL. */
  method StartsWith(buf: array<char>, key: string, ghost text: string) returns (equal: bool)
    requires HoldsString(buf, text) && NUL !in text && NUL !in key
    ensures equal <==> key <= text
  {
    for i := 0 to |key|
      invariant i <= |text| && key[..i] == text[..i]
    {
      assert buf[..][i] == (if i < |text| then text[i] else NUL);
      assert key[i] in key;
      if buf[i] != key[i] {
        return false;
      }
      assert i < |text|;
    }
    assert key[..|key|] == key;
    equal := true;
  }

  /** What the loop finds: the rest of the first buffer that starts with "key=". */
  function FirstMatch(texts: seq<string>, key: string): Option<string> {
    if texts == [] then None
    else if key + "=" <= texts[0] then Some(texts[0][|key| + 1..])
    else FirstMatch(texts[1..], key)
  }

  method GetAnnotation(bufs: seq<array<char>>, key: string, ghost texts: seq<string>) returns (r: Option<string>)
    requires HoldAll(bufs, texts) && NUL !in key && forall t | t in texts :: NUL !in t
    ensures r == FirstMatch(texts, key)
  {
    for i := 0 to |bufs|
      invariant FirstMatch(texts, key) == FirstMatch(texts[i..], key)
    {
      assert texts[i] in texts;
      var same := StartsWith(bufs[i], key, texts[i]);
      SeparatorAt(texts[i], key);
      assert bufs[i][..] == texts[i] + [NUL];
      if same {
        assert bufs[i][|key|] == (if |key| < |texts[i]| then texts[i][|key|] else NUL);
        if bufs[i][|key|] == '=' {
          assert bufs[i][|key| + 1..bufs[i].Length - 1] == texts[i][|key| + 1..];
          return Some(bufs[i][|key| + 1..bufs[i].Length - 1]);
        }
      }
    }
    r := None;
  }

  lemma SeparatorAt(text: string, key: string)
    ensures key + "=" <= text <==> key <= text && |key| < |text| && text[|key|] == '='
  {
    if key + "=" <= text {
      assert key == (key + "=")[..|key|] == text[..|key|];
      assert (key + "=")[|key|] == '=';
    }
    if key <= text && |key| < |text| && text[|key|] == '=' {
      assert text[..|key| + 1] == key + "=";
    }
  }

  // ---- what the lookup is for ----

  /** The string value of a key, if it has one. */
  function ValueOf(obj: seq<Annotation>, key: string): Option<string> {
    if obj == [] then None
    else if obj[0].key == key && obj[0].value.Text? then Some(obj[0].value.s)
    else ValueOf(obj[1..], key)
  }

  /** Two different keys of which one continues the other across an '='. */
  predicate Confusable(k: string, q: string) {
    k != q && (k + "=" <= q || q + "=" <= k)
  }

  lemma MatchOwn(k: string, v: string)
    ensures k + "=" <= Encoded(k, v) && Encoded(k, v)[|k| + 1..] == v
  {
    assert Encoded(k, v)[..|k| + 1] == k + "=";
  }

  lemma MatchOther(k: string, v: string, q: string)
    requires k != q && q + "=" <= Encoded(k, v)
    ensures Confusable(k, q)
  {
    var e := Encoded(k, v);
    assert e[..|q| + 1] == q + "=" && e[..|k| + 1] == k + "=";
    assert q == e[..|q|] && k == e[..|k|];
    if |q| < |k| {
      assert k[..|q| + 1] == e[..|q| + 1];
    } else if |k| < |q| {
      assert q[..|k| + 1] == e[..|k| + 1];
    }
  }

  lemma TextsHead(obj: seq<Annotation>)
    requires obj != []
    ensures Texts(obj) == (if obj[0].value.Text? then [Encoded(obj[0].key, obj[0].value.s)] else []) + Texts(obj[1..])
  {
    if |obj| == 1 {
      assert obj[..0] == [] && obj[1..] == [];
    } else {
      var init := obj[..|obj| - 1];
      TextsHead(init);
      assert obj[1..][..|obj| - 2] == init[1..];
    }
  }

  predicate IsOwn(a: Annotation, q: string) {
    a.value.Text? && a.key == q
  }

  predicate IsRival(a: Annotation, q: string) {
    a.value.Text? && Confusable(a.key, q)
  }

  /** No string-valued member with a confusable key comes before the queried key's own. */
  ghost predicate Clear(obj: seq<Annotation>, q: string) {
    forall j | 0 <= j < |obj| && IsRival(obj[j], q) :: exists i :: 0 <= i < j && IsOwn(obj[i], q)
  }

  lemma ClearTail(obj: seq<Annotation>, q: string)
    requires obj != []
    ensures Clear(obj, q) <==> IsOwn(obj[0], q) || (!IsRival(obj[0], q) && Clear(obj[1..], q))
  {
    var rest := obj[1..];
    if !IsOwn(obj[0], q) && !IsRival(obj[0], q) {
      if Clear(obj, q) {
        forall j | 0 <= j < |rest| && IsRival(rest[j], q) ensures exists i :: 0 <= i < j && IsOwn(rest[i], q) {
          assert IsRival(obj[j + 1], q);
          var i :| 0 <= i < j + 1 && IsOwn(obj[i], q);
          assert IsOwn(rest[i - 1], q);
        }
      }
      if Clear(rest, q) {
        forall j | 0 <= j < |obj| && IsRival(obj[j], q) ensures exists i :: 0 <= i < j && IsOwn(obj[i], q) {
          assert IsRival(rest[j - 1], q);
          var i :| 0 <= i < j - 1 && IsOwn(rest[i], q);
          assert IsOwn(obj[i + 1], q);
        }
      }
    }
  }

  /** One member decides the lookup if its text starts with the query, and else leaves it to the rest. */
  lemma MatchHead(obj: seq<Annotation>, q: string)
    requires obj != []
    ensures var a := obj[0];
            FirstMatch(Texts(obj), q) ==
              if a.value.Text? && q + "=" <= Encoded(a.key, a.value.s) then Some(Encoded(a.key, a.value.s)[|q| + 1..])
              else FirstMatch(Texts(obj[1..]), q)
  {
    TextsHead(obj);
    var a := obj[0];
    if a.value.Text? {
      assert ([Encoded(a.key, a.value.s)] + Texts(obj[1..]))[1..] == Texts(obj[1..]);
    } else {
      assert [] + Texts(obj[1..]) == Texts(obj[1..]);
    }
  }

  lemma MatchOnlyOwnOrRival(a: Annotation, q: string)
    requires a.value.Text?
    ensures IsOwn(a, q) ==> q + "=" <= Encoded(a.key, a.value.s) && Encoded(a.key, a.value.s)[|q| + 1..] == a.value.s
    ensures !IsOwn(a, q) && !IsRival(a, q) ==> !(q + "=" <= Encoded(a.key, a.value.s))
  {
    if a.key == q {
      MatchOwn(q, a.value.s);
    } else if q + "=" <= Encoded(a.key, a.value.s) {
      MatchOther(a.key, a.value.s, q);
    }
  }

  /** For every annotations object in which no confusable key with a string value comes first,
      the lookup gives the string value of the queried key if it has one, and NULL otherwise. */
  lemma {:induction false} LookupIsRight(obj: seq<Annotation>, q: string)
    requires Clear(obj, q)
    ensures FirstMatch(Texts(obj), q) == ValueOf(obj, q)
  {
    if obj != [] {
      ClearTail(obj, q);
      MatchHead(obj, q);
      if obj[0].value.Text? { MatchOnlyOwnOrRival(obj[0], q); }
      if !IsOwn(obj[0], q) { LookupIsRight(obj[1..], q); }
    }
  }

  /** Keys without '=' are never confusable. */
  lemma PlainKeysAreSafe(k: string, q: string)
    requires '=' !in k && '=' !in q
    ensures !Confusable(k, q)
  {
    SeparatorAt(q, k);
    SeparatorAt(k, q);
  }

  /** So the lookup in an object with such keys is always right. */
  lemma PlainObjectsAreClear(obj: seq<Annotation>, q: string)
    requires '=' !in q && forall a | a in obj :: '=' !in a.key
    ensures Clear(obj, q) && FirstMatch(Texts(obj), q) == ValueOf(obj, q)
  {
    forall j | 0 <= j < |obj| ensures !IsRival(obj[j], q) {
      assert obj[j] in obj;
      PlainKeysAreSafe(obj[j].key, q);
    }
    LookupIsRight(obj, q);
  }

  // ---- exactly when the lookup is right ----

  /** The same keys, string-valued in the same places, with any strings as values. */
  ghost predicate SameKeys(a: seq<Annotation>, b: seq<Annotation>) {
    |a| == |b| && forall i | 0 <= i < |a| :: a[i].key == b[i].key && (a[i].value.Text? <==> b[i].value.Text?)
  }

  ghost predicate AllClean(obj: seq<Annotation>) {
    forall a | a in obj :: Clean(a)
  }

  lemma SameKeysClear(a: seq<Annotation>, b: seq<Annotation>, q: string)
    requires SameKeys(a, b) && Clear(a, q)
    ensures Clear(b, q)
  {
    forall j | 0 <= j < |b| && IsRival(b[j], q) ensures exists i :: 0 <= i < j && IsOwn(b[i], q) {
      assert IsRival(a[j], q);
      var i :| 0 <= i < j && IsOwn(a[i], q);
      assert IsOwn(b[i], q);
    }
  }

  /** A value with which a confusable key answers for the query. */
  function Misleading(k: string, q: string): (v: string)
    requires Confusable(k, q)
    ensures q + "=" <= Encoded(k, v)
    ensures NUL !in q ==> NUL !in v
  {
    if k + "=" <= q then
      assert q == k + "=" + q[|k| + 1..];
      assert Encoded(k, q[|k| + 1..] + "=") == q + "=";
      q[|k| + 1..] + "="
    else
      assert Encoded(k, "")[..|q| + 1] == k[..|q| + 1] == q + "=";
      ""
  }

  function WithValue(a: Annotation, v: string): Annotation {
    if a.value.Text? then Annotation(a.key, Text(v)) else a
  }

  lemma Prepend(a: Annotation, b: Annotation, o: seq<Annotation>, obj: seq<Annotation>)
    requires a.key == b.key && (a.value.Text? <==> b.value.Text?)
    requires SameKeys(o, obj)
    ensures SameKeys([a] + o, [b] + obj)
    ensures Clean(a) && AllClean(o) ==> AllClean([a] + o)
  {
  }

  /** Every string value replaced by the same one. */
  function Uniform(obj: seq<Annotation>, v: string): (o: seq<Annotation>)
    ensures SameKeys(o, obj)
  {
    if obj == [] then [] else [WithValue(obj[0], v)] + Uniform(obj[1..], v)
  }

  lemma {:induction false} UniformClean(obj: seq<Annotation>, v: string)
    requires AllClean(obj) && NUL !in v
    ensures AllClean(Uniform(obj, v))
  {
    if obj != [] {
      assert obj[0] in obj && forall x | x in obj[1..] :: x in obj;
      UniformClean(obj[1..], v);
    }
  }

  lemma {:induction false} UniformValue(obj: seq<Annotation>, v: string, q: string)
    ensures ValueOf(Uniform(obj, v), q) == None || ValueOf(Uniform(obj, v), q) == Some(v)
  {
    if obj != [] {
      UniformValue(obj[1..], v, q);
      assert Uniform(obj, v)[1..] == Uniform(obj[1..], v);
    }
  }

  /** With a rival in front, a value that misleads it, and another value for everybody else. */
  lemma RivalMisleads(a: Annotation, rest: seq<Annotation>, q: string) returns (o: seq<Annotation>)
    requires IsRival(a, q) && Clean(a) && AllClean(rest) && NUL !in q
    ensures SameKeys(o, [a] + rest) && AllClean(o) && FirstMatch(Texts(o), q) != ValueOf(o, q)
  {
    var v := Misleading(a.key, q);
    var text := Encoded(a.key, v);
    var other := text[|q| + 1..] + "x";
    var first, others := WithValue(a, v), Uniform(rest, other);
    assert NUL !in text && forall c | c in text[|q| + 1..] :: c in text;
    UniformClean(rest, other);
    Prepend(first, a, others, rest);
    o := [first] + others;
    MatchHead(o, q);
    UniformValue(rest, other, q);
    assert o[1..] == others;
    assert text[|q| + 1..] != other;
  }

  /** Where a rival comes first some values make the lookup wrong. */
  lemma {:induction false} SomeValuesMislead(obj: seq<Annotation>, q: string) returns (o: seq<Annotation>)
    requires !Clear(obj, q) && AllClean(obj) && NUL !in q
    ensures SameKeys(o, obj) && AllClean(o) && FirstMatch(Texts(o), q) != ValueOf(o, q)
    decreases |obj|
  {
    ClearTail(obj, q);
    var a, rest := obj[0], obj[1..];
    assert a in obj && forall x | x in rest :: x in obj;
    assert obj == [a] + rest;
    if IsRival(a, q) {
      o := RivalMisleads(a, rest, q);
    } else {
      var tail := SomeValuesMislead(rest, q);
      Prepend(a, a, tail, rest);
      o := [a] + tail;
      MatchHead(o, q);
      if a.value.Text? { MatchOnlyOwnOrRival(a, q); }
      assert o[1..] == tail;
    }
  }

  /** The lookup is right for all string values under the same keys exactly when no confusable
      string-valued key precedes the queried key's own string-valued member. */
  lemma LookupRightIff(obj: seq<Annotation>, q: string)
    requires AllClean(obj) && NUL !in q
    ensures (forall o | SameKeys(o, obj) && AllClean(o) :: FirstMatch(Texts(o), q) == ValueOf(o, q)) <==> Clear(obj, q)
  {
    if Clear(obj, q) {
      forall o | SameKeys(o, obj) && AllClean(o) ensures FirstMatch(Texts(o), q) == ValueOf(o, q) {
        SameKeysClear(obj, o, q);
        LookupIsRight(o, q);
      }
    } else {
      var o := SomeValuesMislead(obj, q);
    }
  }

  /** A key that is not there is answered by one that continues it across an '='. */
  lemma KeyWithSeparatorAnswers()
    ensures var obj := [Annotation("a=b", Text("y"))];
            ValueOf(obj, "a") == None && FirstMatch(Texts(obj), "a") == Some("b=y")
  {
    var obj := [Annotation("a=b", Text("y"))];
    MatchHead(obj, "a");
    assert Encoded("a=b", "y") == "a=" + "b=y";
    assert |"a=b"| != |"a"|;
  }

  /** Encoding and lookup together. */
  method EncodeAndGet(obj: seq<Annotation>, q: string) returns (r: Option<string>)
    requires AllClean(obj) && NUL !in q
    ensures r == FirstMatch(Texts(obj), q)
    ensures Clear(obj, q) ==> r == ValueOf(obj, q)
  {
    var bufs := EncodeAll(obj);
    TextsClean(obj);
    r := GetAnnotation(bufs, q, Texts(obj));
    if Clear(obj, q) {
      LookupIsRight(obj, q);
    }
  }

  lemma {:induction false} TextsClean(obj: seq<Annotation>)
    requires AllClean(obj)
    ensures forall t | t in Texts(obj) :: NUL !in t
  {
    if obj != [] {
      TextsClean(obj[..|obj| - 1]);
      assert Clean(obj[|obj| - 1]);
    }
  }
}
