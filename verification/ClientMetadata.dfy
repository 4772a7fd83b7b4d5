/** The client-metadata header: a map of strings printed as `key=value;key=value` in key order. */
module ClientMetadata {
  import opened Sequences
  import opened Wrappers

  const MAX_ENTRIES := 16
  const MAX_KEY_BYTES := 64
  const MAX_VALUE_BYTES := 128
  const MAX_HEADER_BYTES := 1024

  type Meta = map<string, string>

  datatype MetadataError =
    | InvalidKey(key: string)
    | InvalidValue(value: string)
    | TooManyEntries(count: nat)
    | KeyTooLong(key: string)
    | ValueTooLong(value: string)
    | HeaderTooLong(length: nat)

  predicate IsAlphanumeric(c: char) {
    'a' <= c <= 'z' || 'A' <= c <= 'Z' || '0' <= c <= '9'
  }

  /** Visible ASCII. */
  predicate IsGraphic(c: char) {
    '!' <= c <= '~'
  }

  predicate IsValidKey(key: string) {
    key != "" && forall c <- key :: IsAlphanumeric(c) || c == '_' || c == '.' || c == '-'
  }

  predicate IsValidValue(value: string) {
    value != "" && forall c <- value :: IsGraphic(c) && c != ';' && c != '='
  }

  // ------------------------------------------------------------------ key order

  /** The order of strings by their first difference. */
  predicate Less(a: string, b: string) {
    b != "" && (a == "" || a[0] < b[0] || (a[0] == b[0] && Less(a[1..], b[1..])))
  }

  lemma {:induction false} LessIrreflexive(a: string)
    ensures !Less(a, a)
  {
    if a == "" {
    } else {
      LessIrreflexive(a[1..]);
    }
  }

  lemma {:induction false} LessTransitive(a: string, b: string, c: string)
    requires Less(a, b) && Less(b, c)
    ensures Less(a, c)
  {
    if a != "" && a[0] == b[0] == c[0] { LessTransitive(a[1..], b[1..], c[1..]); }
  }

  lemma {:induction false} LessTotal(a: string, b: string)
    ensures a == b || Less(a, b) || Less(b, a)
  {
    if a != "" && b != "" && a[0] == b[0] {
      LessTotal(a[1..], b[1..]);
      if a[1..] == b[1..] { assert a == [a[0]] + a[1..] && b == [b[0]] + b[1..]; }
    }
  }

  ghost predicate Sorted(keys: seq<string>) {
    forall i: nat, j: nat | i < j < |keys| :: Less(keys[i], keys[j])
  }

  function Insert(key: string, keys: seq<string>): seq<string> {
    if keys == [] || Less(key, keys[0]) then [key] + keys else [keys[0]] + Insert(key, keys[1..])
  }

  /** The sort of the library, on distinct keys. */
  function Sort(keys: seq<string>): seq<string> {
    if keys == [] then [] else Insert(keys[0], Sort(keys[1..]))
  }

  lemma {:induction false} InsertSorts(key: string, keys: seq<string>)
    requires Sorted(keys) && key !in keys
    ensures Sorted(Insert(key, keys)) && multiset(Insert(key, keys)) == multiset(keys) + multiset{key}
  {
    if keys == [] {
    } else if Less(key, keys[0]) {
      forall j: nat | j < |keys| ensures Less(key, keys[j]) {
        if j > 0 { LessTransitive(key, keys[0], keys[j]); }
      }
    } else {
      LessTotal(key, keys[0]);
      InsertSorts(key, keys[1..]);
      var rest := Insert(key, keys[1..]);
      assert keys == [keys[0]] + keys[1..];
      forall k <- rest ensures Less(keys[0], k) {
        assert k in multiset(rest);
      }
      SortedCons(keys[0], rest);
    }
  }

  lemma SortedCons(key: string, keys: seq<string>)
    requires Sorted(keys) && forall k <- keys :: Less(key, k)
    ensures Sorted([key] + keys)
  {}

  ghost predicate SameKeys(a: seq<string>, b: seq<string>) {
    forall k: string :: k in a <==> k in b
  }

  lemma {:induction false} SortSorts(keys: seq<string>)
    requires Distinct(keys)
    ensures Sorted(Sort(keys)) && multiset(Sort(keys)) == multiset(keys) && SameKeys(Sort(keys), keys)
  {
    if keys == [] {
    } else {
      SortSorts(keys[1..]);
      assert keys == [keys[0]] + keys[1..];
      InsertSorts(keys[0], Sort(keys[1..]));
    }
    SamePermutation(Sort(keys), keys);
  }

  lemma SamePermutation(a: seq<string>, b: seq<string>)
    requires multiset(a) == multiset(b)
    ensures SameKeys(a, b)
  {
    assert forall k: string :: k in a <==> k in multiset(a);
    assert forall k: string :: k in b <==> k in multiset(b);
  }

  /** A set of keys has one sorted enumeration. */
  lemma {:induction false} SortedUnique(a: seq<string>, b: seq<string>)
    requires Sorted(a) && Sorted(b) && SameKeys(a, b)
    ensures a == b
  {
    assert b == [] || b[0] in b;
    if a == [] {
    } else {
      SameHead(a, b);
      TailKeys(a, b);
      SortedUnique(a[1..], b[1..]);
    }
  }

  lemma SameHead(a: seq<string>, b: seq<string>)
    requires a != [] && Sorted(a) && Sorted(b) && SameKeys(a, b)
    ensures b != [] && a[0] == b[0]
  {
    assert a[0] in a;
    var i: nat :| i < |b| && b[i] == a[0];
    assert b[0] in b;
    var j: nat :| j < |a| && a[j] == b[0];
    if i > 0 && j > 0 {
      LessTransitive(a[0], b[0], a[0]);
      LessIrreflexive(a[0]);
    }
  }

  lemma TailKeys(a: seq<string>, b: seq<string>)
    requires a != [] && b != [] && a[0] == b[0] && Sorted(a) && Sorted(b) && SameKeys(a, b)
    ensures SameKeys(a[1..], b[1..])
  {
    LessIrreflexive(a[0]);
    forall k: string ensures k in a[1..] <==> k in a && k != a[0] { assert a == [a[0]] + a[1..]; }
    forall k: string ensures k in b[1..] <==> k in b && k != b[0] { assert b == [b[0]] + b[1..]; }
  }

  /** Whatever order the iterator of a map takes, sorting brings out the same one. */
  lemma SortForgetsOrder(a: seq<string>, b: seq<string>)
    requires Distinct(a) && Distinct(b) && SameKeys(a, b)
    ensures Sort(a) == Sort(b)
  {
    SortSorts(a);
    SortSorts(b);
    SortedUnique(Sort(a), Sort(b));
  }

  // ------------------------------------------------------------------ printing

  function Part(key: string, meta: Meta): string
    requires key in meta
  {
    key + "=" + meta[key]
  }

  function Parts(keys: seq<string>, meta: Meta): (parts: seq<string>)
    requires forall k <- keys :: k in meta
    ensures |parts| == |keys|
  {
    seq(|keys|, i requires 0 <= i < |keys| => Part(keys[i], meta))
  }

  function Join(parts: seq<string>): string {
    if parts == [] then "" else if |parts| == 1 then parts[0] else parts[0] + ";" + Join(parts[1..])
  }

  predicate EntryOk(key: string, value: string) {
    IsValidKey(key) && |key| <= MAX_KEY_BYTES && IsValidValue(value) && |value| <= MAX_VALUE_BYTES
  }

  /** The reason for a refusal is true, and it is the first one in key order. */
  ghost predicate Justified(e: MetadataError, meta: Meta, keys: seq<string>)
    requires forall k <- keys :: k in meta
  {
    match e
    case TooManyEntries(n) => n == |meta| > MAX_ENTRIES
    case HeaderTooLong(n) =>
      && n == |Join(Parts(keys, meta))| > MAX_HEADER_BYTES
      && forall k <- keys :: EntryOk(k, meta[k])
    case _ =>
      exists i: nat :: i < |keys| && Refuses(keys[i], meta[keys[i]], e)
        && forall j: nat | j < i :: EntryOk(keys[j], meta[keys[j]])
  }

  /** The first check an entry fails. */
  predicate Refuses(key: string, value: string, e: MetadataError) {
    if !IsValidKey(key) then e == InvalidKey(key)
    else if |key| > MAX_KEY_BYTES then e == KeyTooLong(key)
    else if !IsValidValue(value) then e == InvalidValue(value)
    else |value| > MAX_VALUE_BYTES && e == ValueTooLong(value)
  }

  /** Checks and prints the entries in the order of `keys`. */
  method PrintEntries(meta: Meta, keys: seq<string>) returns (r: Result<seq<string>, MetadataError>)
    requires forall k <- keys :: k in meta
    ensures r.Ok? ==> r.value == Parts(keys, meta) && forall k <- keys :: EntryOk(k, meta[k])
    ensures r.Err? ==> Justified(r.error, meta, keys)
  {
    var parts: seq<string> := [];
    for i := 0 to |keys|
      invariant forall j: nat | j < i :: EntryOk(keys[j], meta[keys[j]])
      invariant parts == Parts(keys, meta)[..i]
    {
      var key := keys[i];
      var value := meta[key];
      if !IsValidKey(key) { return Err(InvalidKey(key)); }
      if |key| > MAX_KEY_BYTES { return Err(KeyTooLong(key)); }
      if !IsValidValue(value) { return Err(InvalidValue(value)); }
      if |value| > MAX_VALUE_BYTES { return Err(ValueTooLong(value)); }
      parts := parts + [key + "=" + value];
    }
    r := Ok(parts);
  }

  /** The length of the header. */
  ghost function Printed(meta: Meta, keys: seq<string>): nat {
    if forall k <- keys :: k in meta then |Join(Parts(keys, meta))| else 0
  }

  /** The ASCII codes of digits, capital and small letters, `_`, `.` and `-`. */
  predicate IsKeyCode(n: int) {
    0x30 <= n <= 0x39 || 0x41 <= n <= 0x5a || 0x61 <= n <= 0x7a || n == 0x5f || n == 0x2e || n == 0x2d
  }

  /** Which entries are accepted. */
  lemma EntryOkIff(key: string, value: string)
    ensures EntryOk(key, value) <==>
      && 1 <= |key| <= 64 && (forall c <- key :: IsKeyCode(c as int))
      && 1 <= |value| <= 128 && (forall c <- value :: 0x21 <= c as int <= 0x7e && c as int != 0x3b && c as int != 0x3d)
  {
    assert '0' as int == 0x30 && '9' as int == 0x39 && 'A' as int == 0x41 && 'Z' as int == 0x5a;
    assert 'a' as int == 0x61 && 'z' as int == 0x7a && '_' as int == 0x5f && '.' as int == 0x2e && '-' as int == 0x2d;
    assert '!' as int == 0x21 && '~' as int == 0x7e && ';' as int == 0x3b && '=' as int == 0x3d;
    forall c: char ensures (IsAlphanumeric(c) || c == '_' || c == '.' || c == '-') == IsKeyCode(c as int) {}
  }

  /** `order` is the order in which the map happens to be iterated. */
  method Serialize(meta: Meta, order: seq<string>) returns (r: Result<Option<string>, MetadataError>)
    requires Distinct(order) && forall k: string :: k in order <==> k in meta
    ensures r == Ok(None) <==> meta == map[]
    ensures r.Ok? <==> |meta| <= 16 && (forall k <- meta :: EntryOk(k, meta[k])) && Printed(meta, Sort(order)) <= 1024
    ensures forall k: string :: k in Sort(order) <==> k in meta
    ensures r.Ok? && r.value.Some? ==>
      && |meta| <= MAX_ENTRIES && (forall k <- meta :: EntryOk(k, meta[k]))
      && r.value.value == Join(Parts(Sort(order), meta)) && |r.value.value| <= MAX_HEADER_BYTES
    ensures r.Err? ==> Justified(r.error, meta, Sort(order))
  {
    SortSorts(order);
    if |meta| == 0 { return Ok(None); }
    if |meta| > MAX_ENTRIES { return Err(TooManyEntries(|meta|)); }
    var parts := PrintEntries(meta, Sort(order));
    if parts.Err? { return Err(parts.error); }
    var serialized := Join(parts.value);
    if |serialized| > MAX_HEADER_BYTES { return Err(HeaderTooLong(|serialized|)); }
    r := Ok(Some(serialized));
  }

  // ------------------------------------------------------------------ reading back

  /** The position of the first `c`, or the end. */
  function Find(s: string, c: char): (i: nat)
    ensures i <= |s| && (i < |s| ==> s[i] == c) && c !in s[..i]
  {
    if s == "" || s[0] == c then 0 else 1 + Find(s[1..], c)
  }

  function Split(s: string): seq<string>
    decreases |s|
  {
    var i := Find(s, ';');
    if i == |s| then [s] else [s[..i]] + Split(s[i + 1..])
  }

  function Read(parts: seq<string>): Meta {
    if parts == [] then map[]
    else
      var part := parts[|parts| - 1];
      var i := Find(part, '=');
      Read(parts[..|parts| - 1])[part[..i] := if i < |part| then part[i + 1..] else ""]
  }

  /** Splits a header at `;` and each piece at its first `=`. */
  function Parse(header: string): Meta {
    Read(Split(header))
  }

  lemma {:induction false} FindAt(a: string, c: char, b: string)
    requires c !in a
    ensures Find(a + [c] + b, c) == |a|
  {
    if a == "" {
    } else {
      assert (a + [c] + b)[1..] == a[1..] + [c] + b;
      FindAt(a[1..], c, b);
    }
  }

  lemma FindNone(a: string, c: char)
    requires c !in a
    ensures Find(a, c) == |a|
  {}

  lemma {:induction false} SplitJoin(parts: seq<string>)
    requires parts != [] && forall p <- parts :: ';' !in p
    ensures Split(Join(parts)) == parts
  {
    if |parts| == 1 {
      FindNone(parts[0], ';');
    } else {
      SplitJoin(parts[1..]);
      SplitFirst(parts[0], Join(parts[1..]));
      assert parts == [parts[0]] + parts[1..];
    }
  }

  lemma SplitFirst(part: string, rest: string)
    requires ';' !in part
    ensures Split(part + ";" + rest) == [part] + Split(rest)
  {
    FindAt(part, ';', rest);
    var all := part + ";" + rest;
    assert all[..|part|] == part && all[|part| + 1..] == rest;
  }

  lemma ReadPart(key: string, value: string)
    requires EntryOk(key, value)
    ensures var part := key + "=" + value;
            Find(part, '=') == |key| && part[..|key|] == key && part[|key| + 1..] == value
  {
    FindAt(key, '=', value);
  }

  lemma {:induction false} ReadParts(keys: seq<string>, meta: Meta)
    requires Distinct(keys) && forall k <- keys :: k in meta && EntryOk(k, meta[k])
    ensures Read(Parts(keys, meta)) == map k | k in keys :: meta[k]
  {
    if keys == [] {
    } else {
      var init, last := keys[..|keys| - 1], keys[|keys| - 1];
      ReadParts(init, meta);
      assert Parts(keys, meta)[..|keys| - 1] == Parts(init, meta);
      ReadPart(last, meta[last]);
      assert keys == init + [last];
      OneMoreKey(init, last, meta);
    }
  }

  lemma OneMoreKey(init: seq<string>, last: string, meta: Meta)
    requires forall k <- init + [last] :: k in meta
    ensures (map k | k in init + [last] :: meta[k]) == (map k | k in init :: meta[k])[last := meta[last]]
  {
    assert forall k :: k in init + [last] <==> k in init || k == last;
  }

  lemma {:induction false} JoinIsGraphic(parts: seq<string>)
    requires forall p <- parts, c <- p :: IsGraphic(c)
    ensures forall c <- Join(parts) :: IsGraphic(c)
  {
    if |parts| > 1 { JoinIsGraphic(parts[1..]); }
  }

  lemma PartsAreClean(keys: seq<string>, meta: Meta)
    requires forall k <- keys :: k in meta && EntryOk(k, meta[k])
    ensures forall p <- Parts(keys, meta) :: ';' !in p && forall c <- p :: IsGraphic(c)
  {
    forall p <- Parts(keys, meta) ensures ';' !in p && forall c <- p :: IsGraphic(c) {
      var i: nat :| i < |keys| && p == Part(keys[i], meta);
      assert keys[i] in keys;
    }
  }

  /**
  A header that was accepted is a faithful code: it reads back as exactly the map it was made from, it
  consists of visible ASCII and so is a legal field value (section 5.5 of RFC 9110), and it does not
  depend on the order in which the map was iterated.
  */
  lemma HeaderIsFaithful(meta: Meta, order: seq<string>, other: seq<string>)
    requires Distinct(order) && forall k: string :: k in order <==> k in meta
    requires Distinct(other) && forall k: string :: k in other <==> k in meta
    requires meta != map[] && forall k <- meta :: EntryOk(k, meta[k])
    ensures forall k <- Sort(order) :: k in meta
    ensures var header := Join(Parts(Sort(order), meta));
            && Parse(header) == meta
            && (forall c <- header :: IsGraphic(c))
            && Sort(order) == Sort(other)
  {
    SortSorts(order);
    SortForgetsOrder(order, other);
    SortedDistinct(Sort(order));
    HeaderReads(Sort(order), meta);
  }

  lemma HeaderReads(keys: seq<string>, meta: Meta)
    requires Distinct(keys) && forall k: string :: k in keys <==> k in meta
    requires meta != map[] && forall k <- meta :: EntryOk(k, meta[k])
    ensures Parse(Join(Parts(keys, meta))) == meta && forall c <- Join(Parts(keys, meta)) :: IsGraphic(c)
  {
    PartsAreClean(keys, meta);
    assert keys != [] by {
      var k :| k in meta;
      assert k in keys;
    }
    SplitJoin(Parts(keys, meta));
    ReadParts(keys, meta);
    JoinIsGraphic(Parts(keys, meta));
    assert (map k | k in keys :: meta[k]) == meta;
  }

  lemma SortedDistinct(keys: seq<string>)
    requires Sorted(keys)
    ensures Distinct(keys)
  {
    forall i: nat, j: nat | i < j < |keys| ensures keys[i] != keys[j] { LessIrreflexive(keys[i]); }
  }
}
