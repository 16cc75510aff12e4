/**
 * The serialised snapshot of a dataclass that the registry stores in its
 * `classload` column (`pickle.dumps` / `pickle.loads`).
 *
 * The format: a string is each character's code point in three bytes (the
 * first at most 0x10) followed by `End`; a list is `More` before each element
 * and `End` after the last. A class is its name and its list of fields; a
 * field is its name and the list of its metadata keys.
 */
module Pickle {
  import opened Records

  const End: byte := 0xFF
  const More: byte := 0xFE

  function CharBytes(c: char): bytes
  {
    var n := c as int;
    [(n / 0x1_0000) as byte, (n % 0x1_0000 / 0x100) as byte, (n % 0x100) as byte]
  }

  function ByteChar(b0: byte, b1: byte, b2: byte): Option<char>
  {
    var n := b0 as int * 0x1_0000 + b1 as int * 0x100 + b2 as int;
    if n < 0xD800 || 0xE000 <= n < 0x11_0000 then Some(n as char) else None
  }

  lemma CharRoundTrip(c: char)
    ensures |CharBytes(c)| == 3
    ensures CharBytes(c)[0] != End && CharBytes(c)[0] != More
    ensures ByteChar(CharBytes(c)[0], CharBytes(c)[1], CharBytes(c)[2]) == Some(c)
  {
  }

  function EncodeText(s: string): bytes
  {
    if s == [] then [End] else CharBytes(s[0]) + EncodeText(s[1..])
  }

  function DecodeText(b: bytes): (r: Option<(string, bytes)>)
    ensures r.Some? ==> |r.value.1| < |b|
    decreases |b|
  {
    if |b| == 0 then None
    else if b[0] == End then Some(([], b[1..]))
    else if |b| < 3 then None
    else match ByteChar(b[0], b[1], b[2])
      case None => None
      case Some(c) =>
        match DecodeText(b[3..])
        case None => None
        case Some((s, rest)) => Some(([c] + s, rest))
  }

  lemma {:induction false} TextRoundTrip(s: string, rest: bytes)
    ensures DecodeText(EncodeText(s) + rest) == Some((s, rest))
  {
    if s != [] {
      CharRoundTrip(s[0]);
      var b := EncodeText(s) + rest;
      assert b == CharBytes(s[0]) + (EncodeText(s[1..]) + rest);
      assert b[3..] == EncodeText(s[1..]) + rest;
      TextRoundTrip(s[1..], rest);
      assert [s[0]] + s[1..] == s;
    } else {
      assert (EncodeText(s) + rest)[1..] == rest;
    }
  }

  function EncodeNames(ks: seq<string>): bytes
  {
    if ks == [] then [End] else [More] + EncodeText(ks[0]) + EncodeNames(ks[1..])
  }

  function DecodeNames(b: bytes): (r: Option<(seq<string>, bytes)>)
    ensures r.Some? ==> |r.value.1| < |b|
    decreases |b|
  {
    if |b| == 0 then None
    else if b[0] == End then Some(([], b[1..]))
    else if b[0] != More then None
    else match DecodeText(b[1..])
      case None => None
      case Some((k, afterKey)) =>
        match DecodeNames(afterKey)
        case None => None
        case Some((ks, rest)) => Some(([k] + ks, rest))
  }

  lemma {:induction false} NamesRoundTrip(ks: seq<string>, rest: bytes)
    ensures DecodeNames(EncodeNames(ks) + rest) == Some((ks, rest))
  {
    var b := EncodeNames(ks) + rest;
    if ks != [] {
      var tail := EncodeNames(ks[1..]) + rest;
      assert b == [More] + (EncodeText(ks[0]) + tail);
      assert b[1..] == EncodeText(ks[0]) + tail;
      TextRoundTrip(ks[0], tail);
      NamesRoundTrip(ks[1..], rest);
      assert [ks[0]] + ks[1..] == ks;
    } else {
      assert b[1..] == rest;
    }
  }

  function EncodeField(f: Field): bytes
  {
    EncodeText(f.name) + EncodeNames(f.metadata)
  }

  function DecodeField(b: bytes): (r: Option<(Field, bytes)>)
    ensures r.Some? ==> |r.value.1| < |b|
  {
    match DecodeText(b)
    case None => None
    case Some((name, afterName)) =>
      match DecodeNames(afterName)
      case None => None
      case Some((metadata, rest)) => Some((Field(name, metadata), rest))
  }

  lemma FieldRoundTrip(f: Field, rest: bytes)
    ensures DecodeField(EncodeField(f) + rest) == Some((f, rest))
  {
    var tail := EncodeNames(f.metadata) + rest;
    assert EncodeField(f) + rest == EncodeText(f.name) + tail;
    TextRoundTrip(f.name, tail);
    NamesRoundTrip(f.metadata, rest);
  }

  function EncodeFields(fs: seq<Field>): bytes
  {
    if fs == [] then [End] else [More] + EncodeField(fs[0]) + EncodeFields(fs[1..])
  }

  function DecodeFields(b: bytes): (r: Option<(seq<Field>, bytes)>)
    ensures r.Some? ==> |r.value.1| < |b|
    decreases |b|
  {
    if |b| == 0 then None
    else if b[0] == End then Some(([], b[1..]))
    else if b[0] != More then None
    else match DecodeField(b[1..])
      case None => None
      case Some((f, afterField)) =>
        match DecodeFields(afterField)
        case None => None
        case Some((fs, rest)) => Some(([f] + fs, rest))
  }

  lemma {:induction false} FieldsRoundTrip(fs: seq<Field>, rest: bytes)
    ensures DecodeFields(EncodeFields(fs) + rest) == Some((fs, rest))
  {
    var b := EncodeFields(fs) + rest;
    if fs != [] {
      var tail := EncodeFields(fs[1..]) + rest;
      assert b == [More] + (EncodeField(fs[0]) + tail);
      assert b[1..] == EncodeField(fs[0]) + tail;
      FieldRoundTrip(fs[0], tail);
      FieldsRoundTrip(fs[1..], rest);
      assert [fs[0]] + fs[1..] == fs;
    } else {
      assert b[1..] == rest;
    }
  }

  /** `pickle.dumps(cls)`. */
  function Dumps(cls: ClassDef): bytes
  {
    EncodeText(cls.name) + EncodeFields(cls.fields)
  }

  /** `pickle.loads(b)`; `None` when `b` is not a serialised class. */
  function Loads(b: bytes): Option<ClassDef>
  {
    match DecodeText(b)
    case None => None
    case Some((name, afterName)) =>
      match DecodeFields(afterName)
      case None => None
      case Some((fields, rest)) => if rest == [] then Some(ClassDef(name, fields)) else None
  }

  /** Deserialising a snapshot gives back the class that was serialised. */
  lemma LoadsDumps(cls: ClassDef)
    ensures Loads(Dumps(cls)) == Some(cls)
  {
    var fieldBytes := EncodeFields(cls.fields);
    TextRoundTrip(cls.name, fieldBytes);
    FieldsRoundTrip(cls.fields, []);
    assert fieldBytes + [] == fieldBytes;
  }

  /** Two classes with the same snapshot are the same class. */
  lemma DumpsInjective(a: ClassDef, b: ClassDef)
    requires Dumps(a) == Dumps(b)
    ensures a == b
  {
    LoadsDumps(a);
    LoadsDumps(b);
  }
}
