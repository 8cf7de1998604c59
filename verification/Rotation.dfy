/** Key rotation: operator lists as text, the authority built from them, and proposals co-signers can re-derive. */
module Rotation {
  import opened Wrappers
  import opened Text

  datatype Operator = Operator(id: string, vizPubkey: string, tonPubkey: string, solanaPubkey: string)

  // ---------- operator lists ----------

  /** The position of the first `c`, or `|s|`. */
  function IndexOf(s: string, c: char): (i: nat)
    ensures i <= |s| && (i < |s| ==> s[i] == c) && c !in s[..i]
  {
    if s == "" then 0 else if s[0] == c then 0
    else
      var i := 1 + IndexOf(s[1..], c);
      assert s[..i] == [s[0]] + s[1..][..i - 1];
      i
  }

  function TrimAll(parts: seq<string>): (r: seq<string>)
    ensures |r| == |parts| && forall i :: 0 <= i < |r| ==> r[i] == Trim(parts[i])
  {
    seq(|parts|, i requires 0 <= i < |parts| => Trim(parts[i]))
  }

  function ParseEntry(entry: string): Result<Operator, string> {
    var eq := IndexOf(entry, '=');
    if eq == |entry| then Err("operator entry missing '='")
    else
      var id := Trim(entry[..eq]);
      var parts := TrimAll(Split(Trim(entry[eq + 1..]), ':'));
      if |parts| != 2 && |parts| != 3 then Err("operator entry needs vizPub:tonPub[:solanaPub]")
      else
        var solana := if |parts| == 3 then parts[2] else "";
        if id == "" || parts[0] == "" || parts[1] == "" then Err("operator entry incomplete")
        else Ok(Operator(id, parts[0], parts[1], solana))
  }

  /** Entries in turn, blank ones dropped; the first bad entry is an error. */
  function ParseEntries(entries: seq<string>): Result<seq<Operator>, string> {
    if entries == [] then Ok([])
    else
      var entry := Trim(entries[0]);
      if entry == "" then ParseEntries(entries[1..])
      else
        var head := ParseEntry(entry);
        if head.Err? then Err(head.error)
        else
          var tail := ParseEntries(entries[1..]);
          if tail.Err? then tail else Ok([head.value] + tail.value)
  }

  function ParseOperators(spec: string): Result<seq<Operator>, string> {
    ParseEntries(Split(spec, ','))
  }

  function SerializeOperator(o: Operator): string {
    o.id + "=" + o.vizPubkey + ":" + o.tonPubkey + (if o.solanaPubkey != "" then ":" + o.solanaPubkey else "")
  }

  function Entries(ops: seq<Operator>): (r: seq<string>)
    ensures |r| == |ops| && forall i :: 0 <= i < |ops| ==> r[i] == SerializeOperator(ops[i])
  {
    seq(|ops|, i requires 0 <= i < |ops| => SerializeOperator(ops[i]))
  }

  function SerializeOperators(ops: seq<Operator>): string {
    Join(Entries(ops), ',')
  }

  /** No separator where it would split, no outer white space, and the required fields there. */
  predicate WellFormed(o: Operator) {
    && o.id != "" && Trimmed(o.id) && ',' !in o.id && '=' !in o.id
    && o.vizPubkey != "" && KeyField(o.vizPubkey)
    && o.tonPubkey != "" && KeyField(o.tonPubkey)
    && KeyField(o.solanaPubkey)
  }

  predicate KeyField(s: string) {
    Trimmed(s) && ',' !in s && ':' !in s
  }

  function KeyFields(o: Operator): seq<string> {
    if o.solanaPubkey != "" then [o.vizPubkey, o.tonPubkey, o.solanaPubkey] else [o.vizPubkey, o.tonPubkey]
  }

  lemma JoinCons(head: string, rest: seq<string>, c: char)
    requires rest != []
    ensures Join([head] + rest, c) == head + [c] + Join(rest, c)
  {
    assert ([head] + rest)[1..] == rest;
  }

  lemma SerializedShape(o: Operator)
    requires WellFormed(o)
    ensures SerializeOperator(o) == o.id + ['='] + Join(KeyFields(o), ':')
    ensures Trimmed(SerializeOperator(o)) && ',' !in SerializeOperator(o)
    ensures Trimmed(Join(KeyFields(o), ':'))
  {
    var s, keys := SerializeOperator(o), Join(KeyFields(o), ':');
    if o.solanaPubkey != "" {
      JoinCons(o.vizPubkey, [o.tonPubkey, o.solanaPubkey], ':');
      JoinCons(o.tonPubkey, [o.solanaPubkey], ':');
    } else {
      JoinCons(o.vizPubkey, [o.tonPubkey], ':');
    }
    assert s == o.id + ['='] + keys;
    assert s[0] == o.id[0] && s[|s| - 1] == keys[|keys| - 1];
  }

  lemma IndexOfFirst(a: string, c: char, b: string)
    requires c !in a
    ensures IndexOf(a + [c] + b, c) == |a|
  {
    var s := a + [c] + b;
    assert s[|a|] == c;
    assert forall k :: 0 <= k < |a| ==> s[k] == a[k] && s[k] != c;
    assert c in s[..|a| + 1];
  }

  lemma EntryRoundTrip(o: Operator)
    requires WellFormed(o)
    ensures ParseEntry(SerializeOperator(o)) == Ok(o)
  {
    var s, keys := SerializeOperator(o), Join(KeyFields(o), ':');
    SerializedShape(o);
    IndexOfFirst(o.id, '=', keys);
    assert s[..|o.id|] == o.id && s[|o.id| + 1..] == keys;
    TrimIsTrimmed(o.id);
    TrimIsTrimmed(keys);
    SplitOfJoin(KeyFields(o), ':');
    KeyFieldsAreTrimmed(o);
  }

  lemma KeyFieldsAreTrimmed(o: Operator)
    requires WellFormed(o)
    ensures TrimAll(KeyFields(o)) == KeyFields(o)
  {
    TrimIsTrimmed(o.vizPubkey);
    TrimIsTrimmed(o.tonPubkey);
    TrimIsTrimmed(o.solanaPubkey);
  }

  lemma ParseCons(o: Operator, rest: seq<string>)
    requires WellFormed(o) && ParseEntries(rest).Ok?
    ensures ParseEntries([SerializeOperator(o)] + rest) == Ok([o] + ParseEntries(rest).value)
  {
    var entry := SerializeOperator(o);
    SerializedShape(o);
    TrimIsTrimmed(entry);
    EntryRoundTrip(o);
    assert entry != "";
    assert ([entry] + rest)[1..] == rest;
  }

  lemma {:induction false} EntriesRoundTrip(ops: seq<Operator>)
    requires forall o :: o in ops ==> WellFormed(o)
    ensures ParseEntries(Entries(ops)) == Ok(ops)
  {
    if ops != [] {
      assert ops[0] in ops;
      EntriesRoundTrip(ops[1..]);
      ParseCons(ops[0], Entries(ops[1..]));
      assert Entries(ops) == [SerializeOperator(ops[0])] + Entries(ops[1..]);
      assert ops == [ops[0]] + ops[1..];
    }
  }

  lemma SerializedRoundTrip(ops: seq<Operator>)
    requires forall o :: o in ops ==> WellFormed(o)
    ensures ParseOperators(SerializeOperators(ops)) == Ok(ops)
  {
    if ops == [] {
      assert Split("", ',') == [""] && [""][1..] == [];
      assert ParseEntries([""]) == ParseEntries([]);
    } else {
      forall e | e in Entries(ops) ensures ',' !in e {
        var i :| 0 <= i < |ops| && Entries(ops)[i] == e;
        assert ops[i] in ops;
        SerializedShape(ops[i]);
      }
      SplitOfJoin(Entries(ops), ',');
      EntriesRoundTrip(ops);
    }
  }

  lemma ParsedEntryIsWellFormed(entry: string)
    requires ',' !in entry && ParseEntry(entry).Ok?
    ensures WellFormed(ParseEntry(entry).value)
  {
    var eq := IndexOf(entry, '=');
    var rest := Trim(entry[eq + 1..]);
    var parts := Split(rest, ':');
    TrimIsTrimmed(entry[..eq]);
    TrimIsTrimmed(entry[eq + 1..]);
    SplitPartsLack(rest, ':');
    forall i | 0 <= i < |parts| ensures KeyField(Trim(parts[i])) {
      assert parts[i] in parts;
      TrimIsTrimmed(parts[i]);
    }
  }

  lemma {:induction false} ParsedEntriesAreWellFormed(entries: seq<string>)
    requires ParseEntries(entries).Ok? && forall e :: e in entries ==> ',' !in e
    ensures forall o :: o in ParseEntries(entries).value ==> WellFormed(o)
  {
    if entries != [] {
      var entry := Trim(entries[0]);
      assert entries[0] in entries;
      TrimIsTrimmed(entries[0]);
      ParsedEntriesAreWellFormed(entries[1..]);
      if entry != "" {
        ParsedEntryIsWellFormed(entry);
      }
    }
  }

  /** Whatever is parsed is well-formed. */
  lemma ParsedIsWellFormed(spec: string)
    requires ParseOperators(spec).Ok?
    ensures forall o :: o in ParseOperators(spec).value ==> WellFormed(o)
  {
    SplitPartsLack(spec, ',');
    ParsedEntriesAreWellFormed(Split(spec, ','));
  }

  /** Parsing inverts serializing exactly on the well-formed lists. */
  lemma ParseInvertsSerializeIff(ops: seq<Operator>)
    ensures ParseOperators(SerializeOperators(ops)) == Ok(ops) <==> forall o :: o in ops ==> WellFormed(o)
  {
    if ParseOperators(SerializeOperators(ops)) == Ok(ops) {
      ParsedIsWellFormed(SerializeOperators(ops));
    } else if forall o :: o in ops ==> WellFormed(o) {
      SerializedRoundTrip(ops);
    }
  }

  /** So a parsed list, written out again, reads the same. */
  lemma ReparsedIsTheSame(spec: string)
    requires ParseOperators(spec).Ok?
    ensures ParseOperators(SerializeOperators(ParseOperators(spec).value)) == ParseOperators(spec)
  {
    ParsedIsWellFormed(spec);
    SerializedRoundTrip(ParseOperators(spec).value);
  }
}
