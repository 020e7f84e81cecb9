/** The `#EXTINF` directive of an extended M3U playlist (section 4.3.2.1 of RFC 8216) and the
    IPTV `tvg-*` / `group-title` attributes read from it (services/playlistParser.ts:41-61,
    public/parser.worker.js:35-54). */
module Attributes {
  import opened Types
  import opened Text

  const TvgId := "tvg-id"
  const TvgName := "tvg-name"
  const TvgLogo := "tvg-logo"
  const GroupTitle := "group-title"

  /** What is known of the next channel: the fields of `currentChannelInfo` set by a directive. */
  datatype Pending = Pending(name: Option<string>, logo: Option<string>, group: Option<string>, epgId: Option<string>)

  /** `{}` */
  const Blank := Pending(None, None, None, None)

  // ---------------------------------------------------------------------------
  // info.match(/key="([^"]*)"/)

  /** The text `key="` that opens a match. */
  function Opening(key: string): string {
    key + "=\""
  }

  /** The captured value of a match that starts at the first character of `s`, if one does. */
  function MatchHere(s: string, key: string): (r: Option<string>)
    ensures r.Some? ==> '"' !in r.value && Opening(key) + r.value + "\"" <= s
  {
    var o := Opening(key);
    if o <= s && '"' in s[|o|..] then
      var rest := s[|o|..];
      var v := rest[..FirstIndex(rest, '"')];
      assert o + v + "\"" == s[..|o| + |v| + 1];
      Some(v)
    else None
  }

  /** `s.match(/key="([^"]*)"/)?.[1]`: the capture of the leftmost match. */
  function FindAttr(s: string, key: string): (r: Option<string>)
    ensures r.Some? ==> '"' !in r.value
    decreases |s|
  {
    if s == [] then None
    else if MatchHere(s, key).Some? then MatchHere(s, key)
    else FindAttr(s[1..], key)
  }

  // ---------------------------------------------------------------------------
  // The text the attributes are read from, and the name after the comma

  /** `line.substring(line.indexOf(' ') + 1)`: all of `line` when it has no space. */
  function Info(line: string): (info: string)
    ensures ' ' !in line ==> info == line
    ensures ' ' in line ==> var n := |line| - |info| - 1;
                            0 <= n && line == line[..n] + " " + info && ' ' !in line[..n]
  {
    if ' ' in line then line[FirstIndex(line, ' ') + 1..] else line
  }

  /** `info.substring(info.lastIndexOf(',') + 1)`: all of `info` when it has no comma. */
  function CommaName(info: string): string {
    if ',' in info then info[LastIndex(info, ',') + 1..] else info
  }

  /** The record a directive line leaves pending. */
  function ParseDirective(info: string): Pending {
    var epgId := FindAttr(info, TvgId);
    var tvgName := FindAttr(info, TvgName);
    var logo := FindAttr(info, TvgLogo);
    var group := FindAttr(info, GroupTitle);
    var commaName := CommaName(info);
    var name := if !Truthy(tvgName) && commaName != "" then Some(commaName) else tvgName;
    Pending(name, logo, group, epgId)
  }

  /** The name is a non-empty `tvg-name`, else the non-empty text after the last comma; a
      directive that has neither leaves no usable name. */
  lemma DirectiveName(info: string)
    ensures var p := ParseDirective(info);
            var t := FindAttr(info, TvgName);
            && (Truthy(t) ==> p.name == t)
            && (!Truthy(t) && CommaName(info) != "" ==> p.name == Some(CommaName(info)))
            && (!Truthy(t) && CommaName(info) == "" ==> !Truthy(p.name))
  {
  }

  /** The comma name is the text after the last comma, or all of `info` without one. */
  lemma CommaNameAfterLastComma(info: string)
    ensures ',' !in info ==> CommaName(info) == info
    ensures ',' in info ==>
              && ',' !in CommaName(info)
              && info == info[..|info| - |CommaName(info)| - 1] + "," + CommaName(info)
  {
    if ',' in info {
      var i := LastIndex(info, ',');
      assert info == info[..i] + "," + info[i + 1..];
    }
  }

  lemma {:induction false} LastIndexAt(s: string, c: char, j: nat)
    requires j < |s| && s[j] == c && c !in s[j + 1..]
    ensures LastIndex(s, c) == j
  {
    if j < |s| - 1 {
      assert s[|s| - 1] in s[j + 1..];
      assert s[..|s| - 1][j + 1..] == s[j + 1..|s| - 1];
      LastIndexAt(s[..|s| - 1], c, j);
    }
  }

  /** Text in front of a comma-holding tail does not change the comma name. */
  lemma CommaNameOfTail(x: string, tail: string)
    requires ',' in tail
    ensures CommaName(x + tail) == CommaName(tail)
  {
    var s := x + tail;
    var j := LastIndex(tail, ',');
    assert s[|x| + j] == ',';
    assert s[|x| + j + 1..] == tail[j + 1..];
    LastIndexAt(s, ',', |x| + j);
  }

  // ---------------------------------------------------------------------------
  // Well-formed attribute lists

  /** One `key="value"` attribute. */
  datatype Attr = Attr(key: string, value: string)

  /** The attribute written out: `key="value"`. */
  function Token(a: Attr): string {
    a.key + "=\"" + a.value + "\""
  }

  /** The attributes written out with one space between two of them, as in
      `tvg-id="a" group-title="News"`. */
  function Render(attrs: seq<Attr>): string {
    if attrs == [] then ""
    else if |attrs| == 1 then Token(attrs[0])
    else Token(attrs[0]) + " " + Render(attrs[1..])
  }

  /** The value of the first attribute named `key`. */
  function Lookup(attrs: seq<Attr>, key: string): Option<string> {
    if attrs == [] then None
    else if attrs[0].key == key then Some(attrs[0].value)
    else Lookup(attrs[1..], key)
  }

  predicate KeyShaped(k: string) {
    k != "" && forall i :: 0 <= i < |k| ==> k[i] != '=' && k[i] != '"' && k[i] != ' '
  }

  predicate PlainValue(v: string) {
    forall i :: 0 <= i < |v| ==> v[i] != '"' && v[i] != '='
  }

  /** `a` is not a proper suffix of `b` (`tvg-id` and `xtvg-id` would be confused). */
  predicate NotSuffix(a: string, b: string) {
    !(|a| < |b| && b[|b| - |a|..] == a)
  }

  /** A key, a value and a searched key that no match of the searched key can straddle. */
  predicate Separable(a: Attr, key: string) {
    KeyShaped(key) && KeyShaped(a.key) && PlainValue(a.value) && NotSuffix(key, a.key)
  }

  lemma NoOpeningInToken(a: Attr, rest: string, key: string, i: nat)
    requires Separable(a, key) && a.key != key
    requires i < |Token(a)|
    ensures !(Opening(key) <= (Token(a) + rest)[i..])
  {
    var s := Token(a) + rest;
    var t := Token(a);
    var o := Opening(key);
    var k, v := a.key, a.value;
    var n := |k|;
    assert |t| == n + |v| + 3;
    assert forall j :: 0 <= j < n ==> s[j] == k[j];
    assert s[n] == '=' && s[n + 1] == '"';
    assert forall j :: n + 2 <= j < n + 2 + |v| ==> s[j] == v[j - n - 2];
    assert s[|t| - 1] == '"';
    assert forall j :: 0 <= j < |key| ==> o[j] == key[j];
    assert o[|key|] == '=';
    var p := i + |key|;
    if p >= |t| {
      var j := |t| - 1 - i;
      assert s[i..][j] == '"' && o[j] == key[j];
    } else if p != n {
      assert s[i..][|key|] == s[p] != '=';
    } else if i == 0 {
      assert |key| == n;
      var j :| 0 <= j < n && key[j] != k[j];
      assert s[i..][j] == k[j];
    } else {
      assert k[i..] != key;
      assert |k[i..]| == |key|;
      var j :| 0 <= j < |key| && k[i..][j] != key[j];
      assert s[i..][j] == k[i + j];
    }
  }

  lemma {:induction false} SkipPrefix(s: string, n: nat, key: string)
    requires n <= |s|
    requires forall i :: 0 <= i < n ==> !(Opening(key) <= s[i..])
    ensures FindAttr(s, key) == FindAttr(s[n..], key)
  {
    if n > 0 {
      assert !(Opening(key) <= s[0..]);
      assert s[0..] == s;
      forall i | 0 <= i < n - 1 ensures !(Opening(key) <= s[1..][i..]) {
        assert s[1..][i..] == s[i + 1..];
      }
      SkipPrefix(s[1..], n - 1, key);
      assert s[1..][n - 1..] == s[n..];
    }
  }

  /** Searching a written-out attribute either finds it or passes over it. */
  lemma FindAttrToken(a: Attr, rest: string, key: string)
    requires Separable(a, key)
    ensures FindAttr(Token(a) + rest, key) == if a.key == key then Some(a.value) else FindAttr(rest, key)
  {
    var s := Token(a) + rest;
    var o := Opening(key);
    if a.key == key {
      assert s == o + (a.value + "\"" + rest);
      var r := s[|o|..];
      assert r == a.value + "\"" + rest;
      assert r[|a.value|] == '"';
      assert r[..|a.value|] == a.value;
      FirstIndexAt(r, '"', |a.value|);
    } else {
      forall i | 0 <= i < |Token(a)| ensures !(o <= s[i..]) {
        NoOpeningInToken(a, rest, key, i);
      }
      SkipPrefix(s, |Token(a)|, key);
      assert s[|Token(a)|..] == rest;
    }
  }

  lemma {:induction false} NoEqualsNoMatch(s: string, key: string)
    requires '=' !in s
    ensures FindAttr(s, key) == None
  {
    if s != [] {
      var o := Opening(key);
      if |s| > |key| {
        assert s[|key|] != o[|key|];
      }
      NoEqualsNoMatch(s[1..], key);
    }
  }

  /** A match never starts at the space between two attributes. */
  lemma SkipSpace(x: string, key: string)
    requires KeyShaped(key)
    ensures FindAttr(" " + x, key) == FindAttr(x, key)
  {
    var s := " " + x;
    assert !(Opening(key) <= s) by { assert Opening(key)[0] == key[0] != s[0]; }
    assert s[1..] == x;
  }

  /** Searching written-out attributes that no match can straddle, followed by a tail without
      `=`, gives the first attribute of that name. */
  lemma {:induction false} FindAttrRendered(attrs: seq<Attr>, tail: string, key: string)
    requires forall k :: 0 <= k < |attrs| ==> Separable(attrs[k], key)
    requires '=' !in tail
    ensures FindAttr(Render(attrs) + tail, key) == Lookup(attrs, key)
  {
    if attrs == [] {
      assert Render(attrs) + tail == tail;
      NoEqualsNoMatch(tail, key);
    } else if |attrs| == 1 {
      FindAttrToken(attrs[0], tail, key);
      NoEqualsNoMatch(tail, key);
    } else {
      var x := Render(attrs[1..]) + tail;
      assert Render(attrs) + tail == Token(attrs[0]) + (" " + x);
      FindAttrToken(attrs[0], " " + x, key);
      SkipSpace(x, key);
      FindAttrRendered(attrs[1..], tail, key);
    }
  }

  predicate DistinctKeys(attrs: seq<Attr>) {
    forall i, j :: 0 <= i < j < |attrs| ==> attrs[i].key != attrs[j].key
  }

  lemma {:induction false} LookupMember(attrs: seq<Attr>, key: string, value: string)
    requires DistinctKeys(attrs)
    ensures Lookup(attrs, key) == Some(value) <==> Attr(key, value) in attrs
  {
    if attrs != [] {
      LookupMember(attrs[1..], key, value);
      if attrs[0].key == key {
        assert forall j :: 0 < j < |attrs| ==> attrs[j].key != key;
      }
    }
  }

  /** An attribute list the four searches read exactly. */
  predicate WellFormed(attrs: seq<Attr>) {
    && DistinctKeys(attrs)
    && forall k :: 0 <= k < |attrs| ==>
         && Separable(attrs[k], TvgId) && Separable(attrs[k], TvgName)
         && Separable(attrs[k], TvgLogo) && Separable(attrs[k], GroupTitle)
  }

  /** The attributes are read from the text after the first space of the line. */
  lemma InfoAfterHead(head: string, rest: string)
    requires ' ' !in head
    ensures Info(head + " " + rest) == rest
  {
    var line := head + " " + rest;
    assert line[|head|] == ' ' && line[..|head|] == head;
    FirstIndexAt(line, ' ', |head|);
    assert line[|head| + 1..] == rest;
  }

  /** Reading written-out attributes followed by a comma-holding tail gives the four values the
      attributes hold and the comma name of the tail. */
  lemma ParseWellFormed(attrs: seq<Attr>, tail: string)
    requires WellFormed(attrs)
    requires '=' !in tail && ',' in tail
    ensures var p := ParseDirective(Render(attrs) + tail);
            var t := Lookup(attrs, TvgName);
            && p.epgId == Lookup(attrs, TvgId) && p.logo == Lookup(attrs, TvgLogo)
            && p.group == Lookup(attrs, GroupTitle)
            && p.name == (if !Truthy(t) && CommaName(tail) != "" then Some(CommaName(tail)) else t)
  {
    FindAttrRendered(attrs, tail, TvgId);
    FindAttrRendered(attrs, tail, TvgName);
    FindAttrRendered(attrs, tail, TvgLogo);
    FindAttrRendered(attrs, tail, GroupTitle);
    CommaNameOfTail(Render(attrs), tail);
  }

  /** The searches do not look at what precedes a key: `tvg-id` also matches the end of
      `xtvg-id`, so for `xtvg-id="a" tvg-id="b"` the order of the two attributes decides the
      `tvg-id` read. */
  lemma SuffixKeyShadows()
    ensures var shadow, plain := Attr("x" + TvgId, "a"), Attr(TvgId, "b");
            && FindAttr(Render([shadow, plain]), TvgId) == Some("a")
            && FindAttr(Render([plain, shadow]), TvgId) == Some("b")
  {
    var shadow, plain := Attr("x" + TvgId, "a"), Attr(TvgId, "b");
    var inner := Attr(TvgId, "a");
    assert Token(shadow) == "x" + Token(inner);
    var s := Render([shadow, plain]);
    assert [shadow, plain][1..] == [plain];
    assert Render([plain]) == Token(plain);
    assert s == Token(shadow) + " " + Token(plain);
    assert s == "x" + (Token(inner) + (" " + Token(plain)));
    assert s[1..] == Token(inner) + (" " + Token(plain));
    assert !(Opening(TvgId) <= s) by { assert s[0] != Opening(TvgId)[0]; }
    FindAttrToken(inner, " " + Token(plain), TvgId);
    assert [plain, shadow][1..] == [shadow];
    assert Render([shadow]) == Token(shadow);
    assert Render([plain, shadow]) == Token(plain) + (" " + Token(shadow));
    FindAttrToken(plain, " " + Token(shadow), TvgId);
  }

  /** Two lists of distinct keys holding the same attributes agree on every key. */
  lemma LookupAgree(attrs1: seq<Attr>, attrs2: seq<Attr>, key: string)
    requires DistinctKeys(attrs1) && DistinctKeys(attrs2)
    requires forall a :: a in attrs1 <==> a in attrs2
    ensures Lookup(attrs1, key) == Lookup(attrs2, key)
  {
    if Lookup(attrs1, key).Some? {
      LookupMember(attrs1, key, Lookup(attrs1, key).value);
      LookupMember(attrs2, key, Lookup(attrs1, key).value);
    } else if Lookup(attrs2, key).Some? {
      LookupMember(attrs1, key, Lookup(attrs2, key).value);
      LookupMember(attrs2, key, Lookup(attrs2, key).value);
    }
  }

  /** The order in which well-formed, distinct attributes are written does not matter, on a line
      shaped as `#EXTINF:-1 tvg-id="a" group-title="News",News One`: a head without spaces, the
      attributes with one space between two of them, then a tail without `=` that holds the comma. */
  lemma AttributeOrderIrrelevant(head: string, attrs1: seq<Attr>, attrs2: seq<Attr>, tail: string)
    requires ' ' !in head && WellFormed(attrs1) && WellFormed(attrs2)
    requires forall a :: a in attrs1 <==> a in attrs2
    requires '=' !in tail && ',' in tail
    ensures ParseDirective(Info(head + " " + Render(attrs1) + tail))
         == ParseDirective(Info(head + " " + Render(attrs2) + tail))
  {
    assert head + " " + Render(attrs1) + tail == head + " " + (Render(attrs1) + tail);
    assert head + " " + Render(attrs2) + tail == head + " " + (Render(attrs2) + tail);
    InfoAfterHead(head, Render(attrs1) + tail);
    InfoAfterHead(head, Render(attrs2) + tail);
    ParseWellFormed(attrs1, tail);
    ParseWellFormed(attrs2, tail);
    LookupAgree(attrs1, attrs2, TvgId);
    LookupAgree(attrs1, attrs2, TvgName);
    LookupAgree(attrs1, attrs2, TvgLogo);
    LookupAgree(attrs1, attrs2, GroupTitle);
  }
}
