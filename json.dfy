/** `json.loads` on the one kind of text the report holds: a flat JSON object
    whose values are strings, integers, `true`, `false` or `null` (RFC 8259
    grammar for those productions; strings without escape sequences). The
    parser works on suffixes of the input; `Render*` writes such an object,
    with a choice of quote character, and the lemmas prove that decoding
    what was rendered gives back the fields. */
module FlatJson {
  import opened Values
  import opened Decimal

  /** JSON insignificant whitespace. */
  predicate IsWs(c: char) { c == ' ' || c == '\t' || c == '\n' || c == '\r' }

  function SkipWs(s: string): (r: string)
    ensures |r| <= |s|
    ensures r != [] ==> !IsWs(r[0])
  {
    if |s| > 0 && IsWs(s[0]) then SkipWs(s[1..]) else s
  }

  /** A character a string literal may hold as itself: no quote, no escape,
      no control character. */
  predicate IsPlain(c: char) { c >= ' ' && c != '"' && c != '\\' }

  /** The characters of a string literal whose opening quote has been read,
      and what follows its closing quote. */
  function StringBody(s: string): (r: Option<(string, string)>)
    ensures r.Some? ==> |r.value.1| < |s|
  {
    if s == [] then None
    else if s[0] == '"' then Some(([], s[1..]))
    else if IsPlain(s[0]) then
      match StringBody(s[1..])
      case None => None
      case Some((t, rest)) => Some(([s[0]] + t, rest))
    else None
  }

  /** The length of the run of digits that starts s. */
  function DigitSpan(s: string): (n: nat)
    ensures n <= |s| && AllDigits(s[..n])
    ensures n < |s| ==> !IsDigit(s[n])
  {
    if |s| > 0 && IsDigit(s[0]) then
      var k := DigitSpan(s[1..]);
      assert s[..k + 1] == [s[0]] + s[1..][..k];
      1 + k
    else 0
  }

  /** JSON `int` without its sign: "0" alone, or digits not starting with 0. */
  function Natural(s: string): (r: Option<(nat, string)>)
    ensures r.Some? ==> |r.value.1| < |s|
  {
    if s == [] || !IsDigit(s[0]) then None
    else if s[0] == '0' then Some((0, s[1..]))
    else
      var k := DigitSpan(s);
      Some((ValueOf(s[..k]), s[k..]))
  }

  function Number(s: string): (r: Option<(int, string)>)
    ensures r.Some? ==> |r.value.1| < |s|
  {
    if |s| > 0 && s[0] == '-' then
      match Natural(s[1..])
      case None => None
      case Some((n, rest)) => Some((0 - n, rest))
    else
      match Natural(s)
      case None => None
      case Some((n, rest)) => Some((n, rest))
  }

  function Word(s: string, word: string, v: Value): (r: Option<(Value, string)>)
    requires word != []
    ensures r.Some? ==> |r.value.1| < |s|
  {
    if |word| <= |s| && s[..|word|] == word then Some((v, s[|word|..])) else None
  }

  function ParseValue(s: string): (r: Option<(Value, string)>)
    ensures r.Some? ==> |r.value.1| < |s|
  {
    if s == [] then None
    else if s[0] == '"' then
      match StringBody(s[1..])
      case None => None
      case Some((t, rest)) => Some((Str(t), rest))
    else if s[0] == 'n' then Word(s, "null", Null)
    else if s[0] == 't' then Word(s, "true", Bool(true))
    else if s[0] == 'f' then Word(s, "false", Bool(false))
    else
      match Number(s)
      case None => None
      case Some((i, rest)) => Some((Int(i), rest))
  }

  /** One member `"key": value`, and the text after the value. */
  function Pair(s: string): (r: Option<(string, Value, string)>)
    ensures r.Some? ==> |r.value.2| < |s|
  {
    if s == [] || s[0] != '"' then None
    else
      match StringBody(s[1..])
      case None => None
      case Some((k, r1)) =>
        var r2 := SkipWs(r1);
        if r2 == [] || r2[0] != ':' then None
        else
          match ParseValue(SkipWs(r2[1..]))
          case None => None
          case Some((v, r3)) => Some((k, v, r3))
  }

  /** The members of an object from the first key on, added to acc in
      order, so that a repeated key keeps its last value; then the text
      after the closing brace. */
  function Members(s: string, acc: Dict): (r: Option<(Dict, string)>)
    decreases |s|
  {
    match Pair(s)
    case None => None
    case Some((k, v, r3)) =>
      var r4 := SkipWs(r3);
      if r4 != [] && r4[0] == ',' then Members(SkipWs(r4[1..]), acc[k := v])
      else if r4 != [] && r4[0] == '}' then Some((acc[k := v], r4[1..]))
      else None
  }

  /** `json.loads(s)` for a flat object; DecodeError for anything else. */
  function Decode(s: string): Result<Dict>
  {
    var t := SkipWs(s);
    if t == [] || t[0] != '{' then Err(DecodeError)
    else
      var u := SkipWs(t[1..]);
      if u != [] && u[0] == '}' then
        if SkipWs(u[1..]) == [] then Ok(map[]) else Err(DecodeError)
      else
        match Members(u, map[])
        case None => Err(DecodeError)
        case Some((d, rest)) => if SkipWs(rest) == [] then Ok(d) else Err(DecodeError)
  }

  /** `s.replace("'", '"')` */
  function Requote(s: string): string
  {
    seq(|s|, i requires 0 <= i < |s| => if s[i] == '\'' then '"' else s[i])
  }

  // ---------------------------------------------------------------------
  // Rendering a record as the report writes it

  type Field = (string, Value)

  /** Text that can stand inside either kind of quotes unescaped. */
  predicate SafeText(s: string)
  {
    forall i :: 0 <= i < |s| ==> IsPlain(s[i]) && s[i] != '\''
  }

  predicate Renderable(v: Value)
  {
    match v
    case Num(_) => false
    case Str(s) => SafeText(s)
    case _ => true
  }

  predicate RenderableFields(fs: seq<Field>)
  {
    forall i :: 0 <= i < |fs| ==> SafeText(fs[i].0) && Renderable(fs[i].1)
  }

  function Quoted(q: char, s: string): string { [q] + s + [q] }

  function IntText(i: int): string { if i < 0 then "-" + Show(-i) else Show(i) }

  function ValueText(q: char, v: Value): string
    requires !v.Num?
  {
    match v
    case Null => "null"
    case Bool(b) => if b then "true" else "false"
    case Int(i) => IntText(i)
    case Str(s) => Quoted(q, s)
  }

  function FieldText(q: char, f: Field): string
    requires !f.1.Num?
  {
    Quoted(q, f.0) + ": " + ValueText(q, f.1)
  }

  function BodyText(q: char, fs: seq<Field>): string
    requires RenderableFields(fs)
  {
    if fs == [] then ""
    else if |fs| == 1 then FieldText(q, fs[0])
    else FieldText(q, fs[0]) + ", " + BodyText(q, fs[1..])
  }

  /** `{'k': v, ...}` with quote character q. */
  function ObjectText(q: char, fs: seq<Field>): string
    requires RenderableFields(fs)
  {
    "{" + BodyText(q, fs) + "}"
  }

  /** The dict that assigning the fields in order builds from acc. */
  function Fold(acc: Dict, fs: seq<Field>): Dict
    decreases |fs|
  {
    if fs == [] then acc else Fold(acc[fs[0].0 := fs[0].1], fs[1..])
  }

  function ToDict(fs: seq<Field>): Dict { Fold(map[], fs) }

  // ---------------------------------------------------------------------
  // What ToDict holds

  lemma {:induction false} FoldKeys(acc: Dict, fs: seq<Field>)
    ensures Fold(acc, fs).Keys == acc.Keys + set i | 0 <= i < |fs| :: fs[i].0
    decreases |fs|
  {
    if fs != [] {
      FoldKeys(acc[fs[0].0 := fs[0].1], fs[1..]);
      var tail := set i | 0 <= i < |fs| - 1 :: fs[1..][i].0;
      var all := set i | 0 <= i < |fs| :: fs[i].0;
      assert all == {fs[0].0} + tail by {
        forall x | x in all ensures x in {fs[0].0} + tail {
          var i :| 0 <= i < |fs| && fs[i].0 == x;
          if i > 0 { assert fs[1..][i - 1].0 == x; }
        }
        forall x | x in tail ensures x in all {
          var i :| 0 <= i < |fs| - 1 && fs[1..][i].0 == x;
          assert fs[i + 1].0 == x;
        }
      }
    }
  }

  /** A field whose key does not occur again later gives the key's value. */
  lemma {:induction false} FoldLast(acc: Dict, fs: seq<Field>, i: nat)
    requires i < |fs|
    requires forall j :: i < j < |fs| ==> fs[j].0 != fs[i].0
    ensures fs[i].0 in Fold(acc, fs) && Fold(acc, fs)[fs[i].0] == fs[i].1
    decreases |fs|
  {
    var acc' := acc[fs[0].0 := fs[0].1];
    if i == 0 {
      FoldUntouched(acc', fs[1..], fs[0].0);
    } else {
      FoldLast(acc', fs[1..], i - 1);
    }
  }

  /** Keys that no field assigns keep the value they had in acc. */
  lemma {:induction false} FoldUntouched(acc: Dict, fs: seq<Field>, k: string)
    requires forall j :: 0 <= j < |fs| ==> fs[j].0 != k
    ensures k in acc ==> k in Fold(acc, fs) && Fold(acc, fs)[k] == acc[k]
    ensures k !in acc ==> k !in Fold(acc, fs)
    decreases |fs|
  {
    if fs != [] {
      FoldUntouched(acc[fs[0].0 := fs[0].1], fs[1..], k);
    }
  }

  // ---------------------------------------------------------------------
  // Round trip

  lemma {:induction false} RequoteConcat(a: string, b: string)
    ensures Requote(a + b) == Requote(a) + Requote(b)
  {
    assert forall i :: 0 <= i < |a + b| ==> Requote(a + b)[i] == (Requote(a) + Requote(b))[i];
  }

  lemma RequoteUnquoted(s: string)
    requires forall i :: 0 <= i < |s| ==> s[i] != '\''
    ensures Requote(s) == s
  {
  }

  lemma {:induction false} RequoteQuoted(s: string)
    requires SafeText(s)
    ensures Requote(Quoted('\'', s)) == Quoted('"', s)
  {
    RequoteConcat(['\''] + s, ['\'']);
    RequoteConcat(['\''], s);
    RequoteUnquoted(s);
  }

  lemma {:induction false} RequoteValue(v: Value)
    requires Renderable(v)
    ensures Requote(ValueText('\'', v)) == ValueText('"', v)
  {
    match v
    case Str(s) => RequoteQuoted(s);
    case Int(i) =>
      var t := IntText(i);
      assert forall j :: 0 <= j < |t| ==> t[j] != '\'' by {
        var d := if i < 0 then Show(-i) else Show(i);
        assert AllDigits(d);
        assert t == d || t == "-" + d;
      }
      RequoteUnquoted(t);
    case _ =>
  }

  lemma {:induction false} RequoteField(f: Field)
    requires SafeText(f.0) && Renderable(f.1)
    ensures Requote(FieldText('\'', f)) == FieldText('"', f)
  {
    RequoteConcat(Quoted('\'', f.0) + ": ", ValueText('\'', f.1));
    RequoteConcat(Quoted('\'', f.0), ": ");
    RequoteQuoted(f.0);
    RequoteValue(f.1);
  }

  lemma {:induction false} RequoteBody(fs: seq<Field>)
    requires RenderableFields(fs)
    ensures Requote(BodyText('\'', fs)) == BodyText('"', fs)
  {
    if |fs| == 1 {
      RequoteField(fs[0]);
    } else if |fs| > 1 {
      RequoteConcat(FieldText('\'', fs[0]) + ", ", BodyText('\'', fs[1..]));
      RequoteConcat(FieldText('\'', fs[0]), ", ");
      RequoteField(fs[0]);
      RequoteBody(fs[1..]);
    }
  }

  /** Swapping the quotes of a single-quoted record line gives the JSON text. */
  lemma {:induction false} RequoteObject(fs: seq<Field>)
    requires RenderableFields(fs)
    ensures Requote(ObjectText('\'', fs)) == ObjectText('"', fs)
  {
    RequoteConcat("{" + BodyText('\'', fs), "}");
    RequoteConcat("{", BodyText('\'', fs));
    RequoteBody(fs);
  }

  lemma {:induction false} StringBodyRound(s: string, rest: string)
    requires forall i :: 0 <= i < |s| ==> IsPlain(s[i])
    ensures StringBody(s + ['"'] + rest) == Some((s, rest))
  {
    if s != [] {
      assert (s + ['"'] + rest)[1..] == s[1..] + ['"'] + rest;
      StringBodyRound(s[1..], rest);
      assert [s[0]] + s[1..] == s;
    } else {
      assert (s + ['"'] + rest)[1..] == rest;
    }
  }

  lemma {:induction false} DigitSpanAppend(a: string, rest: string)
    requires AllDigits(a)
    requires rest == [] || !IsDigit(rest[0])
    ensures DigitSpan(a + rest) == |a|
  {
    if a != [] {
      assert (a + rest)[1..] == a[1..] + rest;
      DigitSpanAppend(a[1..], rest);
    }
  }

  lemma NaturalRound(n: nat, rest: string)
    requires rest == [] || !IsDigit(rest[0])
    ensures Natural(Show(n) + rest) == Some((n, rest))
  {
    var s := Show(n);
    var t := s + rest;
    if n == 0 {
      assert t[1..] == rest;
    } else {
      DigitSpanAppend(s, rest);
      assert t[..|s|] == s && t[|s|..] == rest;
      ValueOfShow(n);
    }
  }

  lemma {:induction false} NumberRound(i: int, rest: string)
    requires rest == [] || !IsDigit(rest[0])
    ensures Number(IntText(i) + rest) == Some((i, rest))
  {
    if i < 0 {
      var d := Show(-i);
      var t := "-" + d + rest;
      assert IntText(i) + rest == t;
      assert t[1..] == d + rest;
      NaturalRound(-i, rest);
      assert Natural(t[1..]) == Some((-i, rest));
    } else {
      var d := Show(i);
      var t := d + rest;
      assert IntText(i) + rest == t;
      assert t[0] == d[0] && IsDigit(d[0]);
      NaturalRound(i, rest);
      assert Natural(t) == Some((i, rest));
    }
  }

  lemma {:induction false} WordRound(word: string, v: Value, rest: string)
    requires word != []
    ensures Word(word + rest, word, v) == Some((v, rest))
  {
    assert (word + rest)[..|word|] == word;
    assert (word + rest)[|word|..] == rest;
  }

  /** Decoding a rendered value stops at the delimiter that follows it. */
  lemma {:induction false} ValueRound(v: Value, rest: string)
    requires Renderable(v)
    requires rest != [] && (rest[0] == ',' || rest[0] == '}')
    ensures ParseValue(ValueText('"', v) + rest) == Some((v, rest))
  {
    match v
    case Null => WordRound("null", Null, rest);
    case Bool(b) =>
      if b { WordRound("true", v, rest); } else { WordRound("false", v, rest); }
    case Int(i) =>
      NumberRound(i, rest);
      var t := IntText(i);
      assert t[0] == '-' || IsDigit(t[0]);
    case Str(s) =>
      var t := Quoted('"', s) + rest;
      assert t[1..] == s + ['"'] + rest;
      StringBodyRound(s, rest);
  }

  lemma SkipWsStop(s: string)
    requires s != [] && !IsWs(s[0])
    ensures SkipWs(s) == s
  {
  }

  lemma SkipWsSpace(s: string)
    ensures SkipWs(" " + s) == SkipWs(s)
  {
    assert (" " + s)[1..] == s;
  }

  lemma ValueTextStart(q: char, v: Value)
    requires !v.Num? && q == '"'
    ensures ValueText(q, v) != [] && !IsWs(ValueText(q, v)[0])
  {
    if v.Int? {
      var d := if v.i < 0 then Show(-v.i) else Show(v.i);
      assert IsDigit(d[0]);
      assert ValueText(q, v) == d || ValueText(q, v) == "-" + d;
    }
  }

  lemma PairSteps(s: string, k: string, r1: string, v: Value, r3: string)
    requires s != [] && s[0] == '"' && StringBody(s[1..]) == Some((k, r1))
    requires SkipWs(r1) != [] && SkipWs(r1)[0] == ':'
    requires ParseValue(SkipWs(SkipWs(r1)[1..])) == Some((v, r3))
    ensures Pair(s) == Some((k, v, r3))
  {
  }

  /** A rendered member, followed by a delimiter, decodes to its field. */
  lemma {:induction false} PairRound(f: Field, tail: string)
    requires SafeText(f.0) && Renderable(f.1)
    requires tail != [] && (tail[0] == ',' || tail[0] == '}')
    ensures Pair(FieldText('"', f) + tail) == Some((f.0, f.1, tail))
  {
    var k, v := f.0, f.1;
    var value := ValueText('"', v);
    var r1 := ": " + value + tail;
    var s := FieldText('"', f) + tail;
    assert s != [] && s[0] == '"' && StringBody(s[1..]) == Some((k, r1)) by {
      assert s == ['"'] + (k + ['"'] + r1);
      assert s[1..] == k + ['"'] + r1;
      StringBodyRound(k, r1);
    }
    assert SkipWs(r1) == r1 && r1[0] == ':' by {
      SkipWsStop(r1);
    }
    assert SkipWs(r1[1..]) == value + tail by {
      assert r1[1..] == " " + (value + tail);
      SkipWsSpace(value + tail);
      ValueTextStart('"', v);
      SkipWsStop(value + tail);
    }
    assert ParseValue(value + tail) == Some((v, tail)) by {
      ValueRound(v, tail);
    }
    PairSteps(s, k, r1, v, tail);
  }

  /** The last rendered member, closed by '}', ends the members. */
  lemma MembersLast(f: Field, acc: Dict, rest: string)
    requires SafeText(f.0) && Renderable(f.1)
    ensures Members(FieldText('"', f) + "}" + rest, acc) == Some((acc[f.0 := f.1], rest))
  {
    var tail := "}" + rest;
    assert FieldText('"', f) + "}" + rest == FieldText('"', f) + tail;
    PairRound(f, tail);
    SkipWsStop(tail);
    assert tail[1..] == rest;
  }

  /** A rendered member followed by ", " and the next member adds its field
      and goes on with the next one. */
  lemma MembersNext(f: Field, after: string, acc: Dict)
    requires SafeText(f.0) && Renderable(f.1)
    requires after != [] && after[0] == '"'
    ensures Members(FieldText('"', f) + ", " + after, acc) == Members(after, acc[f.0 := f.1])
  {
    var tail := ", " + after;
    assert FieldText('"', f) + ", " + after == FieldText('"', f) + tail;
    PairRound(f, tail);
    SkipWsStop(tail);
    assert tail[1..] == " " + after;
    SkipWsSpace(after);
    SkipWsStop(after);
  }

  /** The members of a rendered body, closed by '}', decode to its fields. */
  lemma {:induction false} MembersRound(fs: seq<Field>, acc: Dict, rest: string)
    requires fs != [] && RenderableFields(fs)
    ensures Members(BodyText('"', fs) + "}" + rest, acc) == Some((Fold(acc, fs), rest))
    decreases |fs|
  {
    var acc' := acc[fs[0].0 := fs[0].1];
    if |fs| == 1 {
      MembersLast(fs[0], acc, rest);
      assert fs[1..] == [];
    } else {
      var body := BodyText('"', fs[1..]);
      assert BodyText('"', fs) + "}" + rest == FieldText('"', fs[0]) + ", " + (body + "}" + rest);
      assert body[0] == '"';
      MembersNext(fs[0], body + "}" + rest, acc);
      MembersRound(fs[1..], acc', rest);
    }
  }

  /** `json.loads` of a rendered record gives its fields, the last of a
      repeated key winning. */
  lemma {:induction false} DecodeRound(fs: seq<Field>)
    requires RenderableFields(fs)
    ensures Decode(ObjectText('"', fs)) == Ok(ToDict(fs))
  {
    var s := ObjectText('"', fs);
    SkipWsStop(s);
    if fs == [] {
      assert s[1..] == "}";
      assert s[1..][1..] == [];
    } else {
      var body := BodyText('"', fs);
      assert s[1..] == body + "}" + [];
      assert body[0] == '"';
      SkipWsStop(s[1..]);
      MembersRound(fs, map[], []);
    }
  }
}
