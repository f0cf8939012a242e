/**
 A small reference serialiser for HTML tags: attributes written as
 ` name="value"` in order, with values copied as they are.
 */
module Html {
  import opened JavaLang

  const LT: CodeUnit := 60
  const GT: CodeUnit := 62
  const EQUALS: CodeUnit := 61
  const SLASH: CodeUnit := 47

  datatype Attr = Attr(name: Str, value: Str)

  /** ` name="`: what an attribute writes before its value. */
  function AttrPrefix(name: Str): Str
  {
    [SPACE] + name + [EQUALS, DQUOTE]
  }

  /** ` name="value"`. */
  function AttrText(a: Attr): Str
  {
    AttrPrefix(a.name) + a.value + [DQUOTE]
  }

  /** The attributes one after the other. */
  function AttrsText(attrs: seq<Attr>): Str
    decreases |attrs|
  {
    if |attrs| == 0 then [] else AttrText(attrs[0]) + AttrsText(attrs[1..])
  }

  lemma AttrsTextPair(a: Attr, b: Attr)
    ensures AttrsText([a, b]) == AttrText(a) + AttrText(b)
  {
    assert [a, b][1..] == [b];
    assert [b][1..] == [];
    assert AttrsText([b]) == AttrText(b) + AttrsText([]);
  }

  /** The attribute text of two lists one after the other is the text of the joined list. */
  lemma {:induction false} AttrsTextAppend(a: seq<Attr>, b: seq<Attr>)
    ensures AttrsText(a + b) == AttrsText(a) + AttrsText(b)
    decreases |a|
  {
    if |a| == 0 {
      assert a + b == b;
    } else {
      assert (a + b)[1..] == a[1..] + b;
      AttrsTextAppend(a[1..], b);
    }
  }

  /** `<name attrs>`. */
  function StartTag(name: Str, attrs: seq<Attr>): Str
  {
    [LT] + name + AttrsText(attrs) + [GT]
  }

  /** `<name attrs />`. */
  function EmptyTag(name: Str, attrs: seq<Attr>): Str
  {
    [LT] + name + AttrsText(attrs) + [SPACE, SLASH, GT]
  }

  /** `</name>`. */
  function EndTag(name: Str): Str
  {
    [LT, SLASH] + name + [GT]
  }

  /** An element with its content between the start and end tags. */
  function Element(name: Str, attrs: seq<Attr>, content: Str): Str
  {
    StartTag(name, attrs) + content + EndTag(name)
  }

  /** All pieces one after the other. */
  function Concat(pieces: seq<Str>): Str
    decreases |pieces|
  {
    if |pieces| == 0 then [] else pieces[0] + Concat(pieces[1..])
  }

  lemma {:induction false} ConcatAppend(a: seq<Str>, b: seq<Str>)
    ensures Concat(a + b) == Concat(a) + Concat(b)
    decreases |a|
  {
    if |a| > 0 {
      assert (a + b)[1..] == a[1..] + b;
      ConcatAppend(a[1..], b);
    } else {
      assert a + b == b;
    }
  }
}
