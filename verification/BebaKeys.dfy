/** Flow-state keys: byte strings in Beba messages, match fields on Open vSwitch. */
module BebaKeys {
  import opened Options
  import opened Bytes

  type Value = seq<byte>

  /** A match field, with the number of bytes it takes in a key. */
  datatype Field = Field(oxm: nat, len: nat)

  /** Some fields can be matched only if another field has a given value. */
  type Prereqs = map<Field, (Field, Value)>

  type Fields = map<Field, Value>

  /** The number of key bytes that a lookup scope takes. */
  function KeyLen(scope: seq<Field>): nat {
    if scope == [] then 0 else KeyLen(scope[..|scope| - 1]) + scope[|scope| - 1].len
  }

  /** The key bytes cut into the fields of the scope. */
  function Parsed(scope: seq<Field>, key: Value): Fields
    requires KeyLen(scope) <= |key|
  {
    if scope == [] then map[]
    else
      var front, f := scope[..|scope| - 1], scope[|scope| - 1];
      Parsed(front, key)[f := key[KeyLen(front)..KeyLen(scope)]]
  }

  /** Adds what the fields of the scope require to be matched as well. */
  function WithPrereqs(scope: seq<Field>, pre: Prereqs, fields: Fields): Fields {
    if scope == [] then fields
    else
      var front, f := scope[..|scope| - 1], scope[|scope| - 1];
      var rest := WithPrereqs(front, pre, fields);
      if f in pre then rest[pre[f].0 := pre[f].1] else rest
  }

  function MatchFields(scope: seq<Field>, pre: Prereqs, key: Value): Fields
    requires KeyLen(scope) <= |key|
  {
    WithPrereqs(scope, pre, Parsed(scope, key))
  }

  /** Cutting a key up, as the program does it. */
  method ParseKey(scope: seq<Field>, pre: Prereqs, key: Value) returns (r: Option<Fields>)
    ensures r.None? <==> |key| < KeyLen(scope)
    ensures r.Some? ==> r.value == MatchFields(scope, pre, key)
  {
    var fields: Fields := map[];
    var offset := 0;
    for i := 0 to |scope|
      invariant offset == KeyLen(scope[..i]) <= |key| && fields == Parsed(scope[..i], key)
    {
      assert scope[..i + 1][..i] == scope[..i];
      if offset + scope[i].len > |key| {
        ShorterScope(scope, i + 1);
        return None;
      }
      fields := fields[scope[i] := key[offset..offset + scope[i].len]];
      offset := offset + scope[i].len;
    }
    assert scope[..|scope|] == scope;
    ghost var parsed := fields;
    for i := 0 to |scope|
      invariant fields == WithPrereqs(scope[..i], pre, parsed)
    {
      assert scope[..i + 1][..i] == scope[..i];
      if scope[i] in pre {
        fields := fields[pre[scope[i]].0 := pre[scope[i]].1];
      }
    }
    return Some(fields);
  }

  /** Bytes beyond the length of the scope play no part. */
  lemma {:induction false} ParsedPrefix(scope: seq<Field>, key: Value, n: nat)
    requires KeyLen(scope) <= n <= |key|
    ensures Parsed(scope, key) == Parsed(scope, key[..n])
  {
    if scope != [] {
      var front := scope[..|scope| - 1];
      ParsedPrefix(front, key, n);
      assert key[..n][KeyLen(front)..KeyLen(scope)] == key[KeyLen(front)..KeyLen(scope)];
    }
  }

  lemma {:induction false} ShorterScope(scope: seq<Field>, n: nat)
    requires n <= |scope|
    ensures KeyLen(scope[..n]) <= KeyLen(scope)
  {
    if n < |scope| {
      ShorterScope(scope[..|scope| - 1], n);
      assert scope[..|scope| - 1][..n] == scope[..n];
    } else {
      assert scope[..n] == scope;
    }
  }

  // ---------------------------------------------------------------- keys of packets

  ghost predicate WellFormed(p: Fields, pre: Prereqs) {
    forall f :: f in p ==> |p[f]| == f.len && (f in pre ==> pre[f].0 in p && p[pre[f].0] == pre[f].1)
  }

  predicate HasScope(p: Fields, scope: seq<Field>) {
    forall f :: f in scope ==> f in p
  }

  /** The key under which Beba looks a packet up. */
  function KeyOf(scope: seq<Field>, p: Fields): (k: Value)
    requires HasScope(p, scope)
  {
    if scope == [] then []
    else
      assert forall f :: f in scope[..|scope| - 1] ==> f in scope;
      KeyOf(scope[..|scope| - 1], p) + p[scope[|scope| - 1]]
  }

  /** The key has the values of the fields in the order of the scope. */
  lemma {:induction false} KeyInScopeOrder(scope: seq<Field>, p: Fields)
    requires HasScope(p, scope) && scope != []
    ensures HasScope(p, scope[1..]) && KeyOf(scope, p) == p[scope[0]] + KeyOf(scope[1..], p)
  {
    var front := scope[..|scope| - 1];
    assert forall f :: f in scope[1..] || f in front ==> f in scope;
    if front == [] {
      assert scope[1..] == [];
    } else {
      KeyInScopeOrder(front, p);
      assert front[1..] == scope[1..][..|scope| - 2] && front[0] == scope[0];
      assert scope[1..][|scope| - 2] == scope[|scope| - 1];
    }
  }

  /** The fields that an entry for this scope matches on. */
  function MatchedFields(scope: seq<Field>, pre: Prereqs): set<Field> {
    (set f | f in scope) + (set f | f in scope && f in pre :: pre[f].0)
  }

  ghost predicate AgreesOn(a: Fields, b: Fields, fs: set<Field>) {
    forall f :: f in fs ==> f in a && f in b && a[f] == b[f]
  }

  lemma {:induction false} KeyOfHasLength(scope: seq<Field>, p: Fields, pre: Prereqs)
    requires HasScope(p, scope) && WellFormed(p, pre)
    ensures |KeyOf(scope, p)| == KeyLen(scope)
  {
    if scope != [] {
      KeyOfHasLength(scope[..|scope| - 1], p, pre);
    }
  }

  /** Cutting up the key of a packet gives the packet's own fields back. */
  lemma {:induction false} ParsingPacketKey(scope: seq<Field>, p: Fields, pre: Prereqs, tail: Value)
    requires HasScope(p, scope) && WellFormed(p, pre)
    ensures KeyLen(scope) <= |KeyOf(scope, p) + tail|
    ensures var fs := Parsed(scope, KeyOf(scope, p) + tail);
            fs.Keys == (set f | f in scope) && AgreesOn(fs, p, fs.Keys)
  {
    KeyOfHasLength(scope, p, pre);
    if scope != [] {
      var front, f := scope[..|scope| - 1], scope[|scope| - 1];
      ParsingPacketKey(front, p, pre, p[f] + tail);
      KeyOfHasLength(front, p, pre);
      assert KeyOf(scope, p) + tail == KeyOf(front, p) + (p[f] + tail);
      assert (KeyOf(scope, p) + tail)[KeyLen(front)..KeyLen(scope)] == p[f];
    }
  }

  lemma {:induction false} PrereqsOfPacket(scope: seq<Field>, p: Fields, pre: Prereqs, fields: Fields)
    requires HasScope(p, scope) && WellFormed(p, pre) && AgreesOn(fields, p, fields.Keys)
    ensures var fs := WithPrereqs(scope, pre, fields);
            fs.Keys == fields.Keys + (set f | f in scope && f in pre :: pre[f].0) && AgreesOn(fs, p, fs.Keys)
  {
    if scope != [] {
      PrereqsOfPacket(scope[..|scope| - 1], p, pre, fields);
      assert scope == scope[..|scope| - 1] + [scope[|scope| - 1]];
    }
  }

  /** The entry for a packet's key consists of the packet's own values. */
  lemma MatchOfPacketKey(scope: seq<Field>, p: Fields, pre: Prereqs, tail: Value)
    requires HasScope(p, scope) && WellFormed(p, pre)
    ensures KeyLen(scope) <= |KeyOf(scope, p) + tail|
    ensures var fs := MatchFields(scope, pre, KeyOf(scope, p) + tail);
            fs.Keys == MatchedFields(scope, pre) && AgreesOn(fs, p, fs.Keys)
  {
    ParsingPacketKey(scope, p, pre, tail);
    PrereqsOfPacket(scope, p, pre, Parsed(scope, KeyOf(scope, p) + tail));
  }

  lemma {:induction false} AgreeingPacketsShareKey(scope: seq<Field>, p: Fields, q: Fields)
    requires HasScope(p, scope) && HasScope(q, scope) && AgreesOn(p, q, set f | f in scope)
    ensures KeyOf(scope, p) == KeyOf(scope, q)
  {
    if scope != [] {
      assert scope == scope[..|scope| - 1] + [scope[|scope| - 1]];
      AgreeingPacketsShareKey(scope[..|scope| - 1], p, q);
    }
  }

  predicate Matches(p: Fields, m: Fields) {
    forall f :: f in m ==> f in p && p[f] == m[f]
  }

  lemma {:induction false} ParsedHasScope(scope: seq<Field>, key: Value)
    requires KeyLen(scope) <= |key|
    ensures Parsed(scope, key).Keys == set f | f in scope
  {
    if scope != [] {
      var front, f := scope[..|scope| - 1], scope[|scope| - 1];
      ParsedHasScope(front, key);
      assert scope == front + [f];
    }
  }

  lemma {:induction false} PrereqsOnlyAdd(scope: seq<Field>, pre: Prereqs, fields: Fields)
    ensures WithPrereqs(scope, pre, fields).Keys == fields.Keys + (set f | f in scope && f in pre :: pre[f].0)
  {
    if scope != [] {
      PrereqsOnlyAdd(scope[..|scope| - 1], pre, fields);
      assert scope == scope[..|scope| - 1] + [scope[|scope| - 1]];
    }
  }

  /** What an entry matches on does not depend on the key. */
  lemma EntryHasScope(scope: seq<Field>, pre: Prereqs, key: Value)
    requires KeyLen(scope) <= |key|
    ensures MatchFields(scope, pre, key).Keys == MatchedFields(scope, pre)
    ensures HasScope(MatchFields(scope, pre, key), scope)
  {
    ParsedHasScope(scope, key);
    PrereqsOnlyAdd(scope, pre, Parsed(scope, key));
  }

  /** The key under which the entry for `k` is found. */
  function StoredKey(scope: seq<Field>, pre: Prereqs, k: Value): Value
    requires KeyLen(scope) <= |k|
  {
    EntryHasScope(scope, pre, k);
    KeyOf(scope, MatchFields(scope, pre, k))
  }

  /** Building the entry overwrites nothing that the key says: no field of the scope is
      required to have another value, and a field named twice has one value. */
  predicate Unaltered(scope: seq<Field>, pre: Prereqs, k: Value) {
    |k| == KeyLen(scope) && StoredKey(scope, pre, k) == k
  }

  ghost predicate IsPacket(p: Fields, scope: seq<Field>, pre: Prereqs) {
    WellFormed(p, pre) && HasScope(p, scope)
  }

  /** Some packet runs into the entry. */
  ghost predicate Live(scope: seq<Field>, pre: Prereqs, m: Fields) {
    exists p :: IsPacket(p, scope, pre) && Matches(p, m)
  }

  /** A packet that the entry for `k` matches has the key under which the entry is found. */
  lemma MatchedPacketKey(scope: seq<Field>, pre: Prereqs, k: Value, q: Fields)
    requires KeyLen(scope) <= |k| && HasScope(q, scope) && Matches(q, MatchFields(scope, pre, k))
    ensures KeyOf(scope, q) == StoredKey(scope, pre, k)
  {
    EntryHasScope(scope, pre, k);
    AgreeingPacketsShareKey(scope, q, MatchFields(scope, pre, k));
  }

  /** The entry for a packet's own key matches the packet. */
  lemma OwnKeyMatches(scope: seq<Field>, pre: Prereqs, q: Fields)
    requires IsPacket(q, scope, pre)
    ensures |KeyOf(scope, q)| == KeyLen(scope) && Matches(q, MatchFields(scope, pre, KeyOf(scope, q)))
  {
    KeyOfHasLength(scope, q, pre);
    MatchOfPacketKey(scope, q, pre, []);
    assert KeyOf(scope, q) + [] == KeyOf(scope, q);
  }

  /** Keys of packets are unaltered. */
  lemma PacketKeyIsUnaltered(scope: seq<Field>, pre: Prereqs, q: Fields)
    requires IsPacket(q, scope, pre)
    ensures Unaltered(scope, pre, KeyOf(scope, q))
  {
    OwnKeyMatches(scope, pre, q);
    MatchedPacketKey(scope, pre, KeyOf(scope, q), q);
  }

  /** The entry for `k` matches exactly the packets that have this key. */
  ghost predicate IsExact(scope: seq<Field>, pre: Prereqs, k: Value)
    requires KeyLen(scope) <= |k|
  {
    forall q :: IsPacket(q, scope, pre) ==> (Matches(q, MatchFields(scope, pre, k)) <==> KeyOf(scope, q) == k)
  }

  /** An entry matches exactly the packets with its key if and only if building it altered
      nothing, or no packet matches it at all. */
  lemma EntryIsExactIff(scope: seq<Field>, pre: Prereqs, k: Value)
    requires |k| == KeyLen(scope)
    ensures IsExact(scope, pre, k) <==> Unaltered(scope, pre, k) || !Live(scope, pre, MatchFields(scope, pre, k))
  {
    var m := MatchFields(scope, pre, k);
    forall q | IsPacket(q, scope, pre)
      ensures Matches(q, m) ==> KeyOf(scope, q) == StoredKey(scope, pre, k)
      ensures KeyOf(scope, q) == k ==> Matches(q, m)
    {
      if Matches(q, m) {
        MatchedPacketKey(scope, pre, k, q);
      }
      OwnKeyMatches(scope, pre, q);
    }
  }

  /** A key that the wrapper treats as Beba does: building its entry alters nothing, or the
      entry is one that no packet runs into. */
  ghost predicate Sensible(scope: seq<Field>, pre: Prereqs, k: Value) {
    |k| == KeyLen(scope) && (Unaltered(scope, pre, k) || !Live(scope, pre, MatchFields(scope, pre, k)))
  }

  /** Unaltered keys have entries that differ, and neither is more specific than the other. */
  lemma EntriesAreApart(scope: seq<Field>, pre: Prereqs, j: Value, k: Value)
    requires Unaltered(scope, pre, j) && Unaltered(scope, pre, k)
    ensures Matches(MatchFields(scope, pre, j), MatchFields(scope, pre, k)) <==> j == k
  {
    if Matches(MatchFields(scope, pre, j), MatchFields(scope, pre, k)) {
      EntryHasScope(scope, pre, j);
      MatchedPacketKey(scope, pre, k, MatchFields(scope, pre, j));
    }
  }

  /** Entries of different sensible keys are apart as far as packets can tell. */
  lemma LiveEntriesAreApart(scope: seq<Field>, pre: Prereqs, j: Value, k: Value)
    requires Sensible(scope, pre, j) && Sensible(scope, pre, k) && j != k
    requires Live(scope, pre, MatchFields(scope, pre, j))
    ensures !Matches(MatchFields(scope, pre, j), MatchFields(scope, pre, k))
  {
    if Matches(MatchFields(scope, pre, j), MatchFields(scope, pre, k)) {
      var p :| IsPacket(p, scope, pre) && Matches(p, MatchFields(scope, pre, j));
      assert Matches(p, MatchFields(scope, pre, k));
      EntriesAreApart(scope, pre, j, k);
    }
  }

  /** The key that a message with `key` acts on: the one its entry is found under, if any
      packet runs into that entry. */
  ghost function Corrected(scope: seq<Field>, pre: Prereqs, key: Value): Value {
    if KeyLen(scope) <= |key| && Live(scope, pre, MatchFields(scope, pre, key))
    then StoredKey(scope, pre, key) + key[KeyLen(scope)..]
    else key
  }

  lemma PacketFixesEntry(scope: seq<Field>, pre: Prereqs, key: Value, q: Fields)
    requires KeyLen(scope) <= |key| && IsPacket(q, scope, pre) && Matches(q, MatchFields(scope, pre, key))
    ensures var c := KeyOf(scope, q) + key[KeyLen(scope)..];
            |c| == |key| && MatchFields(scope, pre, c) == MatchFields(scope, pre, key)
  {
    KeyOfHasLength(scope, q, pre);
    MatchOfPacketKey(scope, q, pre, key[KeyLen(scope)..]);
    EntryHasScope(scope, pre, key);
  }

  /** Every key has the entry of its corrected key, and that key is sensible. */
  lemma CorrectedKeyHasSameEntry(scope: seq<Field>, pre: Prereqs, key: Value)
    requires KeyLen(scope) <= |key|
    ensures var c := Corrected(scope, pre, key);
            && |c| == |key| && MatchFields(scope, pre, c) == MatchFields(scope, pre, key)
            && Sensible(scope, pre, c[..KeyLen(scope)])
            && (Sensible(scope, pre, key[..KeyLen(scope)]) ==> c == key)
  {
    var n, m := KeyLen(scope), MatchFields(scope, pre, key);
    ParsedPrefix(scope, key, n);
    assert key == key[..n] + key[n..];
    if Live(scope, pre, m) {
      var q :| IsPacket(q, scope, pre) && Matches(q, m);
      MatchedPacketKey(scope, pre, key, q);
      PacketKeyIsUnaltered(scope, pre, q);
      PacketFixesEntry(scope, pre, key, q);
      assert (KeyOf(scope, q) + key[n..])[..n] == KeyOf(scope, q);
    }
  }
}
