/**
 The client-side widget `VAppletIntegration`: it initialises the `<applet>`
 markup once from the first complete UIDL update and hands every later `cmd`
 attribute to the applet's `execute`. The framework's answers (whether the
 update changed anything, the module and host page URLs, the application
 URI, debug mode, the session cookie) and the iteration order of the
 parameter `HashMap` come in through an environment record.
 */
module Widget {
  import opened JavaLang
  import Html
  import Uidl

  /** What the framework reports during one `updateFromUIDL`. */
  datatype Env = Env(
    noChanges: bool,
    moduleBaseUrl: Str,
    hostPageBaseUrl: Str,
    appUri: Str,
    debugMode: bool,
    sessionCookie: Option<Str>,
    paramOrder: seq<Str>)

  /** The widget's fields, together with the HTML it currently shows. */
  datatype Widget = Widget(
    initialized: bool,
    paintableId: Option<Str>,
    appletId: Str,
    appletClass: Option<Str>,
    archives: seq<Str>,
    parameters: Option<map<Str, Str>>,
    appletSession: Option<Str>,
    width: Str,
    height: Str,
    codebase: Option<Str>,
    html: Str)

  const CLASSNAME := Utf16("v-applet")

  /** The constructor: empty HTML, the temporary id `v-applet`, no archives, size "0". */
  function NewWidget(): (r: Widget)
    ensures !r.initialized && r.html == [] && r.appletId == CLASSNAME
    ensures r.archives == [] && r.width == Utf16("0") && r.height == Utf16("0")
  {
    Widget(false, None, CLASSNAME, None, [], None, None, Utf16("0"), Utf16("0"), None, [])
  }

  // ---------------------------------------------------------------------------
  // The archive attribute
  // ---------------------------------------------------------------------------

  /** The archive names separated by commas. */
  function Join(xs: seq<Str>): (r: Str)
    decreases |xs|
  {
    if |xs| == 0 then []
    else if |xs| == 1 then xs[0]
    else Join(xs[..|xs| - 1]) + [COMMA] + xs[|xs| - 1]
  }

  /** `getArchives`: copies the array element by element into a new list. */
  method GetArchives(archives: seq<Str>) returns (res: seq<Str>)
    ensures |res| == |archives|
    ensures forall i :: 0 <= i < |res| ==> res[i] == archives[i]
  {
    res := [];
    var i := 0;
    while i < |archives|
      invariant 0 <= i <= |archives|
      invariant res == archives[..i]
    {
      res := res + [archives[i]];
      i := i + 1;
    }
  }

  /**
   The archive loop of `getAppletHTML`: a comma before every name but the
   first, and the empty text for a `null` list.
   */
  method ArchiveAttribute(archives: Option<seq<Str>>) returns (attr: Str)
    ensures archives.None? ==> attr == []
    ensures archives.Some? ==> attr == Join(archives.value)
  {
    attr := [];
    if archives.Some? {
      var xs := archives.value;
      var first := true;
      var i := 0;
      while i < |xs|
        invariant 0 <= i <= |xs|
        invariant first <==> i == 0
        invariant attr == Join(xs[..i])
      {
        if !first {
          attr := attr + [COMMA];
        } else {
          first := false;
        }
        attr := attr + xs[i];
        assert xs[..i + 1][..i] == xs[..i];
        i := i + 1;
      }
      assert xs[..|xs|] == xs;
    }
  }

  /**
   The first step of `getAppletHTML`: the archive attribute composed from
   the list `getArchives` copies out of the widget's array, which is the
   `Join` the initialisation puts into the markup.
   */
  method AppletArchiveText(w: Widget) returns (attr: Str)
    ensures attr == Join(w.archives)
  {
    var list := GetArchives(w.archives);
    assert list == w.archives;
    attr := ArchiveAttribute(Some(list));
  }

  /** Cuts a text at every comma (reference reader for the archive attribute). */
  function Split(s: Str): (r: seq<Str>)
    ensures |r| >= 1
    decreases |s|
  {
    if |s| == 0 then [[]]
    else
      var rest := Split(s[1..]);
      if s[0] == COMMA then [[]] + rest else [[s[0]] + rest[0]] + rest[1..]
  }

  lemma {:induction false} SplitWithoutComma(a: Str)
    requires COMMA !in a
    ensures Split(a) == [a]
    decreases |a|
  {
    if |a| > 0 {
      SplitWithoutComma(a[1..]);
      assert [a[0]] + a[1..] == a;
    }
  }

  lemma {:induction false} SplitAfterField(a: Str, b: Str)
    requires COMMA !in a
    ensures Split(a + [COMMA] + b) == [a] + Split(b)
    decreases |a|
  {
    var s := a + [COMMA] + b;
    if |a| == 0 {
      assert s[1..] == b;
    } else {
      assert s[1..] == a[1..] + [COMMA] + b;
      SplitAfterField(a[1..], b);
      assert [a[0]] + a[1..] == a;
    }
  }

  /** Splitting the join from the front: the first name, a comma, the rest. */
  lemma {:induction false} JoinFront(xs: seq<Str>)
    requires |xs| >= 2
    ensures Join(xs) == xs[0] + [COMMA] + Join(xs[1..])
    decreases |xs|
  {
    if |xs| > 2 {
      var init := xs[..|xs| - 1];
      JoinFront(init);
      assert init[1..] == xs[1..][..|xs[1..]| - 1];
      assert xs[1..][|xs[1..]| - 1] == xs[|xs| - 1];
    } else {
      assert xs[..1] == [xs[0]];
      assert xs[1..] == [xs[1]];
    }
  }

  /**
   The archive attribute loses nothing: when no archive name holds a comma,
   cutting the attribute at its commas gives back the list in its order.
   */
  lemma {:induction false} JoinSplitRoundTrip(xs: seq<Str>)
    requires |xs| >= 1
    requires forall i :: 0 <= i < |xs| ==> COMMA !in xs[i]
    ensures Split(Join(xs)) == xs
    decreases |xs|
  {
    if |xs| == 1 {
      SplitWithoutComma(xs[0]);
    } else {
      JoinFront(xs);
      SplitAfterField(xs[0], Join(xs[1..]));
      JoinSplitRoundTrip(xs[1..]);
      assert [xs[0]] + xs[1..] == xs;
    }
  }

  /** The attribute starts with the first name and ends with the last. */
  lemma {:induction false} JoinEnds(xs: seq<Str>)
    requires |xs| >= 1
    ensures |xs[0]| <= |Join(xs)| && Join(xs)[..|xs[0]|] == xs[0]
    ensures |xs[|xs| - 1]| <= |Join(xs)| && Join(xs)[|Join(xs)| - |xs[|xs| - 1]|..] == xs[|xs| - 1]
  {
    if |xs| >= 2 {
      JoinFront(xs);
      var j := Join(xs);
      var last := xs[|xs| - 1];
      assert j == Join(xs[..|xs| - 1]) + [COMMA] + last;
      assert j[|j| - |last|..] == last;
    }
  }

  /** With non-empty, comma-free first and last names, the attribute has no leading or trailing comma. */
  lemma JoinNoEdgeComma(xs: seq<Str>)
    requires |xs| >= 1 && |xs[0]| >= 1 && |xs[|xs| - 1]| >= 1
    requires COMMA !in xs[0] && COMMA !in xs[|xs| - 1]
    ensures |Join(xs)| >= 1 && Join(xs)[0] != COMMA && Join(xs)[|Join(xs)| - 1] != COMMA
  {
    JoinEnds(xs);
    var j := Join(xs);
    var last := xs[|xs| - 1];
    assert j[0] == j[..|xs[0]|][0] == xs[0][0];
    assert j[|j| - 1] == j[|j| - |last|..][|last| - 1] == last[|last| - 1];
  }

  /** No name gives the empty attribute, and a single name gives itself, with no comma added. */
  lemma JoinShort(xs: seq<Str>)
    requires |xs| <= 1
    ensures |xs| == 0 ==> Join(xs) == []
    ensures |xs| == 1 ==> Join(xs) == xs[0]
  {
  }

  // ---------------------------------------------------------------------------
  // Parameters and the <applet> markup
  // ---------------------------------------------------------------------------

  /** `<param name="k" value="v" />`, written as the source concatenates it. */
  function ParamTag(name: Str, value: Str): Str
  {
    Utf16("<param name=\"") + name + Utf16("\" value=\"") + value + Utf16("\" />")
  }

  /**
   The parameter tags in the map's iteration order; keys not in the map are
   skipped. When every listed key is in the map, the text is the tags of the
   listed keys one after the other.
   */
  function ParamTags(params: map<Str, Str>, order: seq<Str>): (r: Str)
    ensures (forall i :: 0 <= i < |order| ==> order[i] in params) ==> r == Html.Concat(TagList(params, order))
    decreases |order|
  {
    if |order| == 0 then []
    else
      assert (forall i :: 0 <= i < |order| ==> order[i] in params) ==>
               (forall i :: 0 <= i < |order[1..]| ==> order[1..][i] in params) &&
               TagList(params, order)[1..] == TagList(params, order[1..]);
      (if order[0] in params then ParamTag(order[0], params[order[0]]) else [])
        + ParamTags(params, order[1..])
  }

  /** `order` lists every key of the map exactly once, as iterating its key set does. */
  predicate EnumeratesKeys(order: seq<Str>, m: map<Str, Str>)
  {
    (forall i, j :: 0 <= i < j < |order| ==> order[i] != order[j]) &&
    (forall i :: 0 <= i < |order| ==> order[i] in m) &&
    (forall k :: k in m ==> k in order)
  }

  /** The parameter text of `getAppletHTML`: nothing for a `null` map, otherwise one tag per listed key. */
  function ParamText(params: Option<map<Str, Str>>, order: seq<Str>): (r: Str)
    ensures params.None? ==> r == []
    ensures params.Some? && (forall i :: 0 <= i < |order| ==> order[i] in params.value) ==>
              r == Html.Concat(TagList(params.value, order))
  {
    match params
    case None => []
    case Some(m) => ParamTags(m, order)
  }

  lemma ParamTagPieces()
    ensures Utf16("<param name=\"") == [Html.LT] + Utf16("param") + Html.AttrPrefix(Utf16("name"))
    ensures Utf16("\" value=\"") == [DQUOTE] + Html.AttrPrefix(Utf16("value"))
    ensures Utf16("\" />") == [DQUOTE] + [SPACE, Html.SLASH, Html.GT]
  {
  }

  /** A parameter tag is the empty `param` element with a `name` and a `value` attribute. */
  lemma ParamTagIsEmptyTag(name: Str, value: Str)
    ensures ParamTag(name, value)
         == Html.EmptyTag(Utf16("param"), [Html.Attr(Utf16("name"), name), Html.Attr(Utf16("value"), value)])
  {
    var n := Html.Attr(Utf16("name"), name);
    var v := Html.Attr(Utf16("value"), value);
    Html.AttrsTextPair(n, v);
    ParamTagPieces();
  }

  /** The tag of each key in iteration order, one per key. */
  function TagList(params: map<Str, Str>, order: seq<Str>): (r: seq<Str>)
    requires forall i :: 0 <= i < |order| ==> order[i] in params
    ensures |r| == |order|
  {
    seq(|order|, i requires 0 <= i < |order| => ParamTag(order[i], params[order[i]]))
  }

  lemma {:induction false} DistinctCardinality(order: seq<Str>, keys: set<Str>)
    requires forall i, j :: 0 <= i < j < |order| ==> order[i] != order[j]
    requires forall i :: 0 <= i < |order| ==> order[i] in keys
    requires forall k :: k in keys ==> k in order
    ensures |keys| == |order|
    decreases |order|
  {
    if |order| == 0 {
      assert keys == {};
    } else {
      var rest := order[1..];
      forall k | k in keys - {order[0]} ensures k in rest {
        var i :| 0 <= i < |order| && order[i] == k;
        assert i != 0;
        assert rest[i - 1] == k;
      }
      forall i | 0 <= i < |rest| ensures rest[i] in keys - {order[0]} {
        assert rest[i] == order[i + 1];
      }
      DistinctCardinality(rest, keys - {order[0]});
    }
  }

  /**
   Each entry of the parameter map contributes exactly one `<param ... />`
   tag, in the map's iteration order, and nothing else is emitted.
   */
  lemma ParamTagsOnePerEntry(params: map<Str, Str>, order: seq<Str>)
    requires EnumeratesKeys(order, params)
    ensures |TagList(params, order)| == |params|
    ensures ParamTags(params, order) == Html.Concat(TagList(params, order))
  {
    DistinctCardinality(order, params.Keys);
  }

  /** `getCodebase`: the explicit codebase, otherwise the module base URL. */
  function Codebase(codebase: Option<Str>, moduleBaseUrl: Str): (r: Str)
    ensures codebase.Some? ==> r == codebase.value
    ensures codebase.None? ==> r == moduleBaseUrl
  {
    if codebase.None? then moduleBaseUrl else codebase.value
  }

  /**
   `getAppletHTML`, written as the source concatenates it. It builds the
   `applet` element whose attributes are mayscript, code, codebase, width,
   height, id, name and archive, in that order, and whose content is the
   parameter tags.
   */
  function AppletHtml(w: Widget, moduleBaseUrl: Str, archive: Str, order: seq<Str>): (r: Str)
    ensures r == Html.Element(Utf16("applet"), AppletAttrs(w, moduleBaseUrl, archive), ParamText(w.parameters, order))
  {
    var attrs := AppletAttrs(w, moduleBaseUrl, archive);
    AppletHtmlPieces();
    AppletAttrsText(attrs[0], attrs[1], attrs[2], attrs[3], attrs[4], attrs[5], attrs[6], attrs[7]);
    Regroup([Html.LT] + Utf16("applet"),
            Html.AttrPrefix(attrs[0].name), attrs[0].value, Html.AttrPrefix(attrs[1].name), attrs[1].value,
            Html.AttrPrefix(attrs[2].name), attrs[2].value, Html.AttrPrefix(attrs[3].name), attrs[3].value,
            Html.AttrPrefix(attrs[4].name), attrs[4].value, Html.AttrPrefix(attrs[5].name), attrs[5].value,
            Html.AttrPrefix(attrs[6].name), attrs[6].value, Html.AttrPrefix(attrs[7].name), attrs[7].value,
            ParamText(w.parameters, order), Html.EndTag(Utf16("applet")));
    Utf16("<applet mayscript=\"true\" code=\"") + Show(w.appletClass)
      + Utf16("\" codebase=\"") + Codebase(w.codebase, moduleBaseUrl)
      + Utf16("\" width=\"") + w.width + Utf16("\" height=\"") + w.height
      + Utf16("\" id=\"") + w.appletId + Utf16("\" name=\"") + w.appletId
      + Utf16("\" archive=\"") + archive + Utf16("\">") + ParamText(w.parameters, order)
      + Utf16("</applet>")
  }

  /** The attributes of the `<applet>` tag, in order. */
  function AppletAttrs(w: Widget, moduleBaseUrl: Str, archive: Str): seq<Html.Attr>
  {
    [Html.Attr(Utf16("mayscript"), Utf16("true")),
     Html.Attr(Utf16("code"), Show(w.appletClass)),
     Html.Attr(Utf16("codebase"), Codebase(w.codebase, moduleBaseUrl)),
     Html.Attr(Utf16("width"), w.width),
     Html.Attr(Utf16("height"), w.height),
     Html.Attr(Utf16("id"), w.appletId),
     Html.Attr(Utf16("name"), w.appletId),
     Html.Attr(Utf16("archive"), archive)]
  }

  /** ` name="` as a literal is the prefix the reference serialiser writes before a value. */
  lemma AttrPrefixLiteral(name: string)
    ensures Utf16(" " + name + "=\"") == Html.AttrPrefix(Utf16(name))
  {
    Utf16Append(" ", name);
    Utf16Append(" " + name, "=\"");
  }

  lemma AppletOpenSplit()
    ensures Utf16("<applet mayscript=\"true\" code=\"")
         == Utf16("<applet") + Utf16(" mayscript=\"") + Utf16("true\"") + Utf16(" code=\"")
  {
    var p0, p1, p2, p3 := "<applet", " mayscript=\"", "true\"", " code=\"";
    assert "<applet mayscript=\"true\" code=\"" == p0 + p1 + p2 + p3;
    Utf16Append(p0, p1);
    Utf16Append(p0 + p1, p2);
    Utf16Append(p0 + p1 + p2, p3);
  }

  lemma AppletOpenParts()
    ensures Utf16("<applet") == [Html.LT] + Utf16("applet")
    ensures Utf16(" mayscript=\"") == Html.AttrPrefix(Utf16("mayscript"))
    ensures Utf16("true\"") == Utf16("true") + [DQUOTE]
    ensures Utf16(" code=\"") == Html.AttrPrefix(Utf16("code"))
  {
    assert "<applet" == "<" + "applet";
    Utf16Append("<", "applet");
    assert " mayscript=\"" == " " + "mayscript" + "=\"";
    AttrPrefixLiteral("mayscript");
    assert "true\"" == "true" + "\"";
    Utf16Append("true", "\"");
    assert " code=\"" == " " + "code" + "=\"";
    AttrPrefixLiteral("code");
  }

  lemma AppletOpenPiece()
    ensures Utf16("<applet mayscript=\"true\" code=\"")
         == [Html.LT] + Utf16("applet") + Html.AttrPrefix(Utf16("mayscript")) + Utf16("true") + [DQUOTE]
              + Html.AttrPrefix(Utf16("code"))
  {
    AppletOpenSplit();
    AppletOpenParts();
  }

  /** `" name="`: the closing quote of one attribute and the start of the next. */
  lemma NextAttrPiece(name: string)
    ensures Utf16("\" " + name + "=\"") == [DQUOTE] + Html.AttrPrefix(Utf16(name))
  {
    assert "\" " + name + "=\"" == "\"" + (" " + name + "=\"");
    Utf16Append("\"", " " + name + "=\"");
    AttrPrefixLiteral(name);
  }

  lemma AppletHtmlPieces()
    ensures Utf16("<applet mayscript=\"true\" code=\"")
         == [Html.LT] + Utf16("applet") + Html.AttrPrefix(Utf16("mayscript")) + Utf16("true") + [DQUOTE]
              + Html.AttrPrefix(Utf16("code"))
    ensures Utf16("\" codebase=\"") == [DQUOTE] + Html.AttrPrefix(Utf16("codebase"))
    ensures Utf16("\" width=\"") == [DQUOTE] + Html.AttrPrefix(Utf16("width"))
    ensures Utf16("\" height=\"") == [DQUOTE] + Html.AttrPrefix(Utf16("height"))
    ensures Utf16("\" id=\"") == [DQUOTE] + Html.AttrPrefix(Utf16("id"))
    ensures Utf16("\" name=\"") == [DQUOTE] + Html.AttrPrefix(Utf16("name"))
    ensures Utf16("\" archive=\"") == [DQUOTE] + Html.AttrPrefix(Utf16("archive"))
    ensures Utf16("\">") == [DQUOTE, Html.GT]
    ensures Utf16("</applet>") == Html.EndTag(Utf16("applet"))
  {
    AppletOpenPiece();
    NextAttrPiece("codebase");
    assert "\" " + "codebase" + "=\"" == "\" codebase=\"";
    NextAttrPiece("width");
    assert "\" " + "width" + "=\"" == "\" width=\"";
    NextAttrPiece("height");
    assert "\" " + "height" + "=\"" == "\" height=\"";
    NextAttrPiece("id");
    assert "\" " + "id" + "=\"" == "\" id=\"";
    NextAttrPiece("name");
    assert "\" " + "name" + "=\"" == "\" name=\"";
    NextAttrPiece("archive");
    assert "\" " + "archive" + "=\"" == "\" archive=\"";
    assert Utf16("\">") == [DQUOTE, Html.GT];
    assert Utf16("</applet>") == Html.EndTag(Utf16("applet"));
  }

  /** The attribute text of the `<applet>` tag, one attribute after the other. */
  lemma AppletAttrsText(a0: Html.Attr, a1: Html.Attr, a2: Html.Attr, a3: Html.Attr,
                        a4: Html.Attr, a5: Html.Attr, a6: Html.Attr, a7: Html.Attr)
    ensures Html.AttrsText([a0, a1, a2, a3, a4, a5, a6, a7])
         == Html.AttrText(a0) + Html.AttrText(a1) + Html.AttrText(a2) + Html.AttrText(a3)
              + Html.AttrText(a4) + Html.AttrText(a5) + Html.AttrText(a6) + Html.AttrText(a7)
  {
    var p0, p1, p2, p3 := [a0, a1], [a2, a3], [a4, a5], [a6, a7];
    assert [a0, a1, a2, a3, a4, a5, a6, a7] == (p0 + p1) + (p2 + p3);
    Html.AttrsTextAppend(p0 + p1, p2 + p3);
    Html.AttrsTextAppend(p0, p1);
    Html.AttrsTextAppend(p2, p3);
    Html.AttrsTextPair(a0, a1);
    Html.AttrsTextPair(a2, a3);
    Html.AttrsTextPair(a4, a5);
    Html.AttrsTextPair(a6, a7);
  }

  /** Regrouping the pieces of the source's concatenation into tag, attributes and content. */
  lemma Regroup(open: Str, p0: Str, v0: Str, p1: Str, v1: Str, p2: Str, v2: Str, p3: Str, v3: Str,
                p4: Str, v4: Str, p5: Str, v5: Str, p6: Str, v6: Str, p7: Str, v7: Str, content: Str, close: Str)
    ensures (open + p0 + v0 + [DQUOTE] + p1) + v1 + ([DQUOTE] + p2) + v2 + ([DQUOTE] + p3) + v3
              + ([DQUOTE] + p4) + v4 + ([DQUOTE] + p5) + v5 + ([DQUOTE] + p6) + v6 + ([DQUOTE] + p7) + v7
              + [DQUOTE, Html.GT] + content + close
         == open + ((p0 + v0 + [DQUOTE]) + (p1 + v1 + [DQUOTE]) + (p2 + v2 + [DQUOTE]) + (p3 + v3 + [DQUOTE])
              + (p4 + v4 + [DQUOTE]) + (p5 + v5 + [DQUOTE]) + (p6 + v6 + [DQUOTE]) + (p7 + v7 + [DQUOTE]))
              + [Html.GT] + content + close
  {
  }

  // ---------------------------------------------------------------------------
  // Applet parameters
  // ---------------------------------------------------------------------------

  const PARAM_APP_SESSION := Utf16("appSession")
  const PARAM_APP_URL := Utf16("appUrl")
  const PARAM_APP_DEBUG := Utf16("appDebug")
  const PARAM_PAINTABLE_ID := Utf16("paintableId")
  const PARAM_APPLET_ID := Utf16("appletId")

  lemma ParamNamesDistinct()
    ensures PARAM_APPLET_ID != PARAM_PAINTABLE_ID && PARAM_APPLET_ID != PARAM_APP_SESSION
    ensures PARAM_APPLET_ID != PARAM_APP_DEBUG && PARAM_APPLET_ID != PARAM_APP_URL
    ensures PARAM_PAINTABLE_ID != PARAM_APP_SESSION && PARAM_PAINTABLE_ID != PARAM_APP_DEBUG
    ensures PARAM_PAINTABLE_ID != PARAM_APP_URL && PARAM_APP_SESSION != PARAM_APP_DEBUG
    ensures PARAM_APP_SESSION != PARAM_APP_URL && PARAM_APP_DEBUG != PARAM_APP_URL
  {
    assert PARAM_APP_DEBUG[3] != PARAM_APPLET_ID[3];
  }

  /** The session the applet joins: the widget's session if it has one, else the `JSESSIONID` cookie. */
  function SessionId(appletSession: Option<Str>, cookie: Option<Str>): (r: Option<Str>)
    ensures appletSession.Some? ==> r == appletSession
    ensures appletSession.None? ==> r == cookie
    ensures r.None? <==> appletSession.None? && cookie.None?
  {
    if appletSession.None? then cookie else appletSession
  }

  /**
   `getDefaultIntegrationParameters`: the applet id, the paintable id, the
   session as `JSESSIONID=<id>`, the debug flag and the application URL.
   */
  function DefaultParameters(appletId: Str, paintableId: Option<Str>, appletSession: Option<Str>, env: Env)
    : (r: map<Str, Str>)
    ensures r.Keys == {PARAM_APPLET_ID, PARAM_PAINTABLE_ID, PARAM_APP_SESSION, PARAM_APP_DEBUG, PARAM_APP_URL}
    ensures r[PARAM_APPLET_ID] == appletId && r[PARAM_PAINTABLE_ID] == Show(paintableId)
    ensures appletSession.Some? ==> r[PARAM_APP_SESSION] == Utf16("JSESSIONID=") + appletSession.value
    ensures appletSession.None? ==> r[PARAM_APP_SESSION] == Utf16("JSESSIONID=") + Show(env.sessionCookie)
    ensures r[PARAM_APP_DEBUG] == BoolText(env.debugMode)
    ensures r[PARAM_APP_URL] == env.hostPageBaseUrl + env.appUri
  {
    ParamNamesDistinct();
    map[PARAM_APPLET_ID := appletId,
        PARAM_PAINTABLE_ID := Show(paintableId),
        PARAM_APP_SESSION := Utf16("JSESSIONID=") + Show(SessionId(appletSession, env.sessionCookie)),
        PARAM_APP_DEBUG := BoolText(env.debugMode),
        PARAM_APP_URL := env.hostPageBaseUrl + env.appUri]
  }

  /** The parameters after the user's map has been put on top of the defaults. */
  function Merged(defaults: map<Str, Str>, user: Option<map<Str, Str>>): map<Str, Str>
  {
    if user.None? then defaults else defaults + user.value
  }

  /**
   A user parameter wins over a default of the same name; every other default
   survives; nothing else appears.
   */
  lemma UserParamsOverride(defaults: map<Str, Str>, user: map<Str, Str>, k: Str)
    ensures k in Merged(defaults, Some(user)) <==> k in defaults || k in user
    ensures k in user ==> Merged(defaults, Some(user))[k] == user[k]
    ensures k !in user && k in defaults ==> Merged(defaults, Some(user))[k] == defaults[k]
  {
  }

  /**
   The loop that puts every key of the user's map, in key-set order, into the
   defaults computes `Merged`; `keys` is that key-set order.
   */
  method MergeParameters(defaults: map<Str, Str>, user: Option<map<Str, Str>>, keys: seq<Str>)
    returns (res: map<Str, Str>)
    requires user.Some? ==> (forall i :: 0 <= i < |keys| ==> keys[i] in user.value)
    requires user.Some? ==> (forall k :: k in user.value ==> k in keys)
    ensures res == Merged(defaults, user)
  {
    res := defaults;
    if user.Some? {
      var m := user.value;
      var i := 0;
      while i < |keys|
        invariant 0 <= i <= |keys|
        invariant forall k :: k in res <==> k in defaults || k in keys[..i]
        invariant forall k :: k in res ==> res[k] == if k in keys[..i] then m[k] else defaults[k]
      {
        assert keys[..i + 1] == keys[..i] + [keys[i]];
        res := res[keys[i] := m[keys[i]]];
        i := i + 1;
      }
      assert keys[..i] == keys;
    }
  }

  // ---------------------------------------------------------------------------
  // Updates from the server
  // ---------------------------------------------------------------------------

  /** The two native calls into the applet: `execute(cmd)` and `execute(cmd, params)`. */
  datatype Invocation =
    | ExecuteCommand(appletId: Str, cmd: Str)
    | ExecuteWithParams(appletId: Str, cmd: Str, params: seq<Str>)

  /** `execute`: the call with parameters only for a non-null, non-empty array. */
  function Dispatch(appletId: Str, cmd: Str, params: Option<seq<Str>>): (r: Invocation)
    ensures r.appletId == appletId && r.cmd == cmd
    ensures r.ExecuteWithParams? <==> params.Some? && |params.value| > 0
    ensures r.ExecuteWithParams? ==> r.params == params.value
  {
    if params.Some? && |params.value| > 0 then ExecuteWithParams(appletId, cmd, params.value)
    else ExecuteCommand(appletId, cmd)
  }

  /** The widget after an update, and the call made into the applet, if any. */
  datatype Update = Update(widget: Widget, invoked: Option<Invocation>)

  /** The last block of `updateFromUIDL`: run `cmd`, with `cmdParams` when present. */
  function RunCommand(w: Widget, a: Uidl.Attributes): (r: Update)
    ensures r.widget == w
    ensures r.invoked.Some? <==> a.cmd.Some?
    ensures r.invoked.Some? ==> r.invoked.value == Dispatch(w.appletId, a.cmd.value, a.cmdParams)
  {
    if a.cmd.Some? then Update(w, Some(Dispatch(w.appletId, a.cmd.value, a.cmdParams))) else Update(w, None)
  }

  /** A present attribute, otherwise the default. */
  function OrDefault(attr: Option<Str>, default: Str): (r: Str)
    ensures attr.Some? ==> r == attr.value
    ensures attr.None? ==> r == default
  {
    if attr.Some? then attr.value else default
  }

  /**
   The initialisation block once the three required attributes are known to
   be present: codebase, size, archives, parameters and then the HTML.
   */
  function Initialise(w: Widget, a: Uidl.Attributes, env: Env): (r: Widget)
    requires a.appletArchives.Some?
    ensures r.initialized
  {
    var w1 := w.(codebase := if a.appletCodebase.Some? then a.appletCodebase else w.codebase,
                 width := OrDefault(a.width, Utf16("0")),
                 height := OrDefault(a.height, Utf16("0")),
                 archives := a.appletArchives.value);
    var w2 := w1.(parameters := Some(Merged(DefaultParameters(w1.appletId, w1.paintableId, w1.appletSession, env),
                                            a.appletParamNames)));
    w2.(html := AppletHtml(w2, env.moduleBaseUrl, Join(w2.archives), env.paramOrder), initialized := true)
  }

  /**
   `updateFromUIDL`. When the framework reports no changes nothing happens.
   Otherwise the paintable id and applet id are taken over; an uninitialised
   widget checks `appletClass`, `appletSession` and `appletArchives` in turn,
   returning at the first one missing with the fields read so far kept, and
   otherwise initialises; then `cmd` is run.
   */
  function UpdateFromUidl(w: Widget, msg: Uidl.Message, env: Env): (r: Update)
    ensures env.noChanges ==> r == Update(w, None)
    ensures !env.noChanges ==> r.widget.paintableId == Some(msg.id) && r.widget.appletId == CLASSNAME + msg.id
  {
    if env.noChanges then Update(w, None)
    else
      var a := msg.attributes;
      var w1 := w.(paintableId := Some(msg.id), appletId := CLASSNAME + msg.id);
      if w1.initialized then RunCommand(w1, a)
      else if a.appletClass.None? then Update(w1, None)
      else
        var w2 := w1.(appletClass := a.appletClass);
        if a.appletSession.None? then Update(w2, None)
        else
          var w3 := w2.(appletSession := a.appletSession);
          if a.appletArchives.None? then Update(w3, None)
          else RunCommand(Initialise(w3, a, env), a)
  }

  /** The three attributes without which the widget cannot initialise. */
  predicate HasRequired(a: Uidl.Attributes)
  {
    a.appletClass.Some? && a.appletSession.Some? && a.appletArchives.Some?
  }

  /**
   After a changed update the widget is initialised exactly when it already
   was or the update carried all three required attributes, and a command
   reaches the applet exactly when there is one and the widget is initialised.
   */
  lemma InitialisedIff(w: Widget, msg: Uidl.Message, env: Env)
    requires !env.noChanges
    ensures var r := UpdateFromUidl(w, msg, env);
            (r.widget.initialized <==> w.initialized || HasRequired(msg.attributes)) &&
            (r.invoked.Some? <==> r.widget.initialized && msg.attributes.cmd.Some?)
  {
  }

  /** A missing required attribute leaves the widget uninitialised, without HTML change and without a command. */
  lemma MissingAttributeNoInit(w: Widget, msg: Uidl.Message, env: Env)
    requires !w.initialized && !HasRequired(msg.attributes)
    ensures var r := UpdateFromUidl(w, msg, env);
            !r.widget.initialized && r.widget.html == w.html && r.invoked.None?
  {
  }

  /**
   The first complete update builds the markup from the attributes: size
   "0" unless given, user parameters over the defaults, the session from the
   `appletSession` attribute, and the applet element around the parameter tags.
   */
  lemma FirstCompleteUpdate(w: Widget, msg: Uidl.Message, env: Env)
    requires !env.noChanges && !w.initialized && HasRequired(msg.attributes)
    ensures var r := UpdateFromUidl(w, msg, env).widget;
            var a := msg.attributes;
            r.initialized && r.appletClass == a.appletClass && r.archives == a.appletArchives.value &&
            r.width == OrDefault(a.width, Utf16("0")) && r.height == OrDefault(a.height, Utf16("0")) &&
            r.parameters == Some(Merged(DefaultParameters(CLASSNAME + msg.id, Some(msg.id), a.appletSession, env),
                                        a.appletParamNames)) &&
            r.html == Html.Element(Utf16("applet"), AppletAttrs(r, env.moduleBaseUrl, Join(a.appletArchives.value)),
                                   ParamText(r.parameters, env.paramOrder))
  {
  }

  /** The applet's `name` is always the generated applet id: the name attribute plays no part in an update. */
  lemma NameAttributeIgnored(w: Widget, msg: Uidl.Message, env: Env, name: Option<Str>)
    ensures UpdateFromUidl(w, Uidl.Message(msg.id, msg.attributes.(appletName := name)), env)
         == UpdateFromUidl(w, msg, env)
  {
  }

  /** The markup opens the `applet` tag with `mayscript="true"` and the code attribute, and closes it last. */
  lemma AppletHtmlFrame(w: Widget, moduleBaseUrl: Str, archive: Str, order: seq<Str>)
    ensures var h := AppletHtml(w, moduleBaseUrl, archive, order);
            var open := Utf16("<applet mayscript=\"true\" code=\"");
            var close := Utf16("</applet>");
            |open| + |close| <= |h| && h[..|open|] == open && h[|h| - |close|..] == close
  {
    Frame(Utf16("<applet mayscript=\"true\" code=\""), Show(w.appletClass),
          Utf16("\" codebase=\""), Codebase(w.codebase, moduleBaseUrl),
          Utf16("\" width=\""), w.width, Utf16("\" height=\""), w.height,
          Utf16("\" id=\""), w.appletId, Utf16("\" name=\""), w.appletId,
          Utf16("\" archive=\""), archive, Utf16("\">"), ParamText(w.parameters, order),
          Utf16("</applet>"));
  }

  lemma Frame(p0: Str, p1: Str, p2: Str, p3: Str, p4: Str, p5: Str, p6: Str, p7: Str, p8: Str,
              p9: Str, p10: Str, p11: Str, p12: Str, p13: Str, p14: Str, p15: Str, p16: Str)
    ensures var h := p0 + p1 + p2 + p3 + p4 + p5 + p6 + p7 + p8 + p9 + p10 + p11 + p12 + p13 + p14 + p15 + p16;
            |p0| + |p16| <= |h| && h[..|p0|] == p0 && h[|h| - |p16|..] == p16
  {
    var h := p0 + p1 + p2 + p3 + p4 + p5 + p6 + p7 + p8 + p9 + p10 + p11 + p12 + p13 + p14 + p15 + p16;
    var mid := p1 + p2 + p3 + p4 + p5 + p6 + p7 + p8 + p9 + p10 + p11 + p12 + p13 + p14 + p15;
    assert h == p0 + mid + p16;
  }

  /** Applies a sequence of updates, each with the framework's answers for it. */
  function Replay(w: Widget, steps: seq<(Uidl.Message, Env)>): Widget
    decreases |steps|
  {
    if |steps| == 0 then w else Replay(UpdateFromUidl(w, steps[0].0, steps[0].1).widget, steps[1..])
  }

  /**
   What initialisation fixes: the markup, and the class, archives, session,
   codebase, size and parameters it was built from. The applet id is not
   among them: every update recomputes it from the paintable id.
   */
  predicate SameSetup(a: Widget, b: Widget)
  {
    a.initialized == b.initialized && a.html == b.html && a.appletClass == b.appletClass &&
    a.archives == b.archives && a.parameters == b.parameters && a.appletSession == b.appletSession &&
    a.width == b.width && a.height == b.height && a.codebase == b.codebase
  }

  /**
   Once initialised, no sequence of later updates rebuilds the HTML or changes
   its class, archives, session, codebase, size or parameters.
   */
  lemma {:induction false} InitialiseOnce(w: Widget, steps: seq<(Uidl.Message, Env)>)
    requires w.initialized
    ensures SameSetup(Replay(w, steps), w)
    decreases |steps|
  {
    if |steps| > 0 {
      var next := UpdateFromUidl(w, steps[0].0, steps[0].1).widget;
      assert SameSetup(next, w);
      InitialiseOnce(next, steps[1..]);
    }
  }

  /**
   After initialisation an update under another paintable id moves the
   applet id, and with it the target of commands, while the markup still
   names the applet by the old id.
   */
  lemma IdDriftsAfterInitialisation(w: Widget, msg: Uidl.Message, env: Env)
    requires w.initialized && !env.noChanges
    ensures var u := UpdateFromUidl(w, msg, env);
            u.widget.html == w.html && u.widget.appletId == CLASSNAME + msg.id &&
            (u.invoked.Some? ==> u.invoked.value.appletId == CLASSNAME + msg.id)
  {
  }
}
