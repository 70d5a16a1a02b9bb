/** The body of a bulk deletion, and what an endpoint reads in it. */
module DeleteBody {
  import opened Prelude

  const HEAD := "<?xml version=\"1.0\" encoding=\"UTF-8\"?><Delete xmlns=\"http://s3.amazonaws.com/doc/2006-03-01/\">"
  const OPENING := "<Object><Key>"
  const CLOSING := "</Key></Object>"
  const TAIL := "<Quiet>true</Quiet></Delete>"

  // ----- Writing -----

  function Objects(keys: seq<string>): string {
    if keys == [] then "" else OPENING + (keys[0] + (CLOSING + Objects(keys[1..])))
  }

  /** The keys go into the body as they are. */
  function Body(keys: seq<string>): string {
    HEAD + (Objects(keys) + TAIL)
  }

  /** The body for one key, spelled out. */
  lemma OneKeyBody(key: string)
    ensures Body([key]) ==
      "<?xml version=\"1.0\" encoding=\"UTF-8\"?><Delete xmlns=\"http://s3.amazonaws.com/doc/2006-03-01/\">" +
      (("<Object><Key>" + (key + "</Key></Object>")) + "<Quiet>true</Quiet></Delete>")
  {
    assert [key][1..] == [] && Objects([]) == "" && CLOSING + "" == CLOSING;
    assert Objects([key]) == OPENING + (key + CLOSING);
  }

  // ----- Reading -----

  /** The characters of XML 1.0, section 2.2. */
  predicate IsXmlChar(c: char) {
    (c >= ' ' && c != '\U{FFFE}' && c != '\U{FFFF}') || c == '\t' || c == '\n' || c == '\r'
  }

  /** How many characters come before the first `stop`. */
  function UpTo(s: string, stop: char): (n: nat)
    ensures n <= |s| && stop !in s[..n] && (n < |s| ==> s[n] == stop)
  {
    if s == "" || s[0] == stop then 0
    else
      var n := UpTo(s[1..], stop);
      assert s[..n + 1] == [s[0]] + s[1..][..n];
      n + 1
  }

  /** Whether the end of a CDATA section, forbidden in text by section 2.4, occurs. */
  predicate EndsCdata(s: string) {
    |s| >= 3 && (s[..3] == "]]>" || EndsCdata(s[1..]))
  }

  /** The characters a piece of text stands for: references are resolved (section 4.1) and line
      ends normalised (section 2.11). `entity` tells what the endpoint knows. */
  function Decode(entity: string -> Option<char>, s: string): Option<string> {
    if s == "" then Some("")
    else if s[0] == '&' then
      var n := UpTo(s, ';');
      if n == |s| || entity(s[1..n]).None? then None
      else Prepend(entity(s[1..n]).value, Decode(entity, s[n + 1..]))
    else if s[0] == '\r' then
      Prepend('\n', Decode(entity, if |s| > 1 && s[1] == '\n' then s[2..] else s[1..]))
    else if !IsXmlChar(s[0]) then None
    else Prepend(s[0], Decode(entity, s[1..]))
  }

  function Prepend(c: char, s: Option<string>): Option<string> {
    if s.None? then None else Some([c] + s.value)
  }

  function Text(entity: string -> Option<char>, s: string): Option<string> {
    if EndsCdata(s) then None else Decode(entity, s)
  }

  predicate StartsWith(s: string, prefix: string) {
    |prefix| <= |s| && s[..|prefix|] == prefix
  }

  /** The keys of the objects up to the end of the body; none if it is not of this form. */
  function ReadObjects(entity: string -> Option<char>, s: string): Option<seq<string>>
    decreases |s|
  {
    if s == TAIL then Some([])
    else if !StartsWith(s, OPENING) then None
    else
      var rest := s[|OPENING|..];
      var n := UpTo(rest, '<');
      var key := Text(entity, rest[..n]);
      if key.None? || !StartsWith(rest[n..], CLOSING) then None
      else
        var more := ReadObjects(entity, rest[n..][|CLOSING|..]);
        if more.None? then None else Some([key.value] + more.value)
  }

  /** What the endpoint deletes. */
  function ReadBody(entity: string -> Option<char>, body: string): Option<seq<string>> {
    if StartsWith(body, HEAD) then ReadObjects(entity, body[|HEAD|..]) else None
  }

  // ----- Which keys come back -----

  /** A key without markup characters, carriage returns and what text may not contain. */
  predicate Plain(key: string) {
    && (forall i | 0 <= i < |key| :: key[i] != '<' && key[i] != '&' && key[i] != '\r' && IsXmlChar(key[i]))
    && !EndsCdata(key)
  }

  lemma {:induction false} DecodeShrinks(entity: string -> Option<char>, s: string)
    ensures Decode(entity, s).Some? ==>
      && |Decode(entity, s).value| <= |s|
      && ('&' in s ==> |Decode(entity, s).value| < |s|)
    decreases |s|
  {
    if s != "" {
      if s[0] == '&' {
        var n := UpTo(s, ';');
        if n < |s| {
          assert s[n] == ';' && n > 0;
          DecodeShrinks(entity, s[n + 1..]);
        }
      } else if s[0] == '\r' && |s| > 1 && s[1] == '\n' {
        DecodeShrinks(entity, s[2..]);
        assert s == [s[0], s[1]] + s[2..];
      } else {
        DecodeShrinks(entity, s[1..]);
        assert s == [s[0]] + s[1..];
      }
    }
  }

  /** Text is read as it stands if and only if it has no reference, no carriage return and no
      forbidden character. */
  lemma {:induction false} DecodeIsSame(entity: string -> Option<char>, s: string)
    ensures Decode(entity, s) == Some(s) <==>
      forall i | 0 <= i < |s| :: s[i] != '&' && s[i] != '\r' && IsXmlChar(s[i])
  {
    if s != "" {
      if s[0] == '&' {
        DecodeShrinks(entity, s);
      } else if s[0] == '\r' {
        assert Decode(entity, s).Some? ==> Decode(entity, s).value[0] == '\n';
      } else if IsXmlChar(s[0]) {
        DecodeIsSame(entity, s[1..]);
        assert s == [s[0]] + s[1..];
        assert Decode(entity, s) == Some(s) <==> Decode(entity, s[1..]) == Some(s[1..]);
      }
    }
  }

  lemma {:induction false} UpToIs(a: string, b: string, stop: char)
    requires b != "" && b[0] == stop
    ensures UpTo(a + b, stop) <= |a| && (UpTo(a + b, stop) == |a| <==> stop !in a)
  {
    if a == "" {
      assert a + b == b;
    } else if a[0] != stop {
      assert (a + b)[1..] == a[1..] + b;
      UpToIs(a[1..], b, stop);
      assert a == [a[0]] + a[1..];
    }
  }

  /** What is read at the place of one key, in front of the objects that follow it. */
  lemma KeyReads(entity: string -> Option<char>, key: string, rest: string)
    ensures var s := OPENING + (key + (CLOSING + rest));
      var read := ReadObjects(entity, s);
      && (Plain(key) ==> read == (var more := ReadObjects(entity, rest);
                                  if more.None? then None else Some([key] + more.value)))
      && (!Plain(key) ==> read.None? || (read.value != [] && read.value[0] != key))
  {
    var s, behind := OPENING + (key + (CLOSING + rest)), CLOSING + rest;
    assert OPENING[1] == 'O' && s[1] == 'O' && TAIL[1] == 'Q';
    assert s[..|OPENING|] == OPENING && s[|OPENING|..] == key + behind;
    assert CLOSING[0] == '<' && behind[0] == '<';
    UpToIs(key, behind, '<');
    var n := UpTo(key + behind, '<');
    var text := (key + behind)[..n];
    assert text == key[..n];
    DecodeIsSame(entity, text);
    DecodeShrinks(entity, text);
    if n == |key| {
      assert text == key && (key + behind)[n..] == behind && behind[..|CLOSING|] == CLOSING
        && behind[|CLOSING|..] == rest;
      assert Text(entity, key) == Some(key) <==> Plain(key);
    }
  }

  lemma ObjectsSplit(keys: seq<string>, tail: string)
    requires keys != []
    ensures Objects(keys) + tail == OPENING + (keys[0] + (CLOSING + (Objects(keys[1..]) + tail)))
  {
    Associates(OPENING, keys[0], CLOSING, Objects(keys[1..]), tail);
  }

  lemma Associates(a: string, b: string, c: string, d: string, e: string)
    ensures a + (b + (c + d)) + e == a + (b + (c + (d + e)))
  {
  }

  lemma HeadAndRest(read: Option<seq<string>>, more: Option<seq<string>>, keys: seq<string>)
    requires keys != [] && read == if more.None? then None else Some([keys[0]] + more.value)
    ensures read == Some(keys) <==> more == Some(keys[1..])
  {
    assert keys == [keys[0]] + keys[1..];
    if more.Some? {
      assert ([keys[0]] + more.value)[1..] == more.value;
    }
  }

  ghost predicate AllPlain(keys: seq<string>) {
    forall i | 0 <= i < |keys| :: Plain(keys[i])
  }

  lemma {:induction false} ObjectsRead(entity: string -> Option<char>, keys: seq<string>)
    ensures ReadObjects(entity, Objects(keys) + TAIL) == Some(keys) <==> AllPlain(keys)
  {
    if keys == [] {
      assert Objects(keys) + TAIL == TAIL;
    } else {
      var rest := Objects(keys[1..]) + TAIL;
      ObjectsSplit(keys, TAIL);
      KeyReads(entity, keys[0], rest);
      ObjectsRead(entity, keys[1..]);
      var read, more := ReadObjects(entity, Objects(keys) + TAIL), ReadObjects(entity, rest);
      if Plain(keys[0]) {
        HeadAndRest(read, more, keys);
        assert AllPlain(keys) <==> AllPlain(keys[1..]);
      }
    }
  }

  /** The endpoint reads exactly the keys that were meant if and only if every one of them is
      plain, whatever references it knows. */
  lemma BodyReadsBack(entity: string -> Option<char>, keys: seq<string>)
    ensures ReadBody(entity, Body(keys)) == Some(keys) <==> AllPlain(keys)
  {
    var rest := Objects(keys) + TAIL;
    assert Body(keys)[..|HEAD|] == HEAD && Body(keys)[|HEAD|..] == rest;
    ObjectsRead(entity, keys);
  }

  /** One key with markup in it is read as two others. */
  lemma OneKeyReadsAsTwo(entity: string -> Option<char>, a: string, b: string)
    requires Plain(a) && Plain(b)
    ensures var key := a + (CLOSING + (OPENING + b));
      ReadBody(entity, Body([key])) == Some([a, b])
  {
    var key := a + (CLOSING + (OPENING + b));
    assert [key][1..] == [] && [a, b][1..] == [b] && [b][1..] == [];
    assert Objects([]) == "" && Objects([key]) == OPENING + (key + (CLOSING + ""));
    assert Objects([b]) == OPENING + (b + (CLOSING + ""));
    assert Objects([a, b]) == OPENING + (a + (CLOSING + Objects([b])));
    assert Objects([key]) == Objects([a, b]);
    assert Body([key]) == Body([a, b]);
    BodyReadsBack(entity, [a, b]);
  }
}
