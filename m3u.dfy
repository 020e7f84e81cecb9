/** `parseM3U` (services/playlistParser.ts:29-81, public/parser.worker.js:23-74): an extended M3U
    playlist (section 4.3.1.1 of RFC 8216 for the header) is read line by line; a directive leaves
    a pending record that the next location line turns into a channel. */
module M3U {
  import opened Types
  import opened Text
  import opened Proxy
  import opened Attributes
  import opened Grouping

  const Header := "#EXTM3U"
  const DirectiveTag := "#EXTINF:"
  const DefaultGroup := "General"

  /** How the loop treats a trimmed line. */
  datatype LineKind = Directive | Location | Ignored

  function Classify(line: string): LineKind {
    if DirectiveTag <= line then Directive
    else if line != "" && !("#" <= line) then Location
    else Ignored
  }

  /** The loop's state: `currentChannelInfo` and the `channels` pushed so far. */
  datatype Scanner = Scanner(pending: Pending, channels: seq<Channel>)

  const Start := Scanner(Blank, [])

  /** The channel a location line makes of a pending record with a name. */
  function Emit(p: Pending, location: string, secure: bool): Channel
    requires Truthy(p.name) && location != ""
  {
    var group := OrElse(p.group, DefaultGroup);
    Channel(group + "-" + p.name.value + "-" + location, p.name.value, Proxify(p.logo, secure),
            Proxify(Some(location), secure).value, group, p.epgId)
  }

  /** One iteration of the loop, on the raw line. */
  function Step(st: Scanner, raw: string, secure: bool): Scanner {
    var line := Trim(raw);
    match Classify(line)
    case Directive => Scanner(ParseDirective(Info(line)), st.channels)
    case Location =>
      Scanner(Blank, if Truthy(st.pending.name) then st.channels + [Emit(st.pending, line, secure)] else st.channels)
    case Ignored => st
  }

  /** The loop run over `lines` from state `st`. */
  function Run(st: Scanner, lines: seq<string>, secure: bool): Scanner
    decreases |lines|
  {
    if lines == [] then st else Run(Step(st, lines[0], secure), lines[1..], secure)
  }

  /** What `parseM3U(content)` resolves to, or the error it throws. */
  function Parse(content: string, secure: bool): Result<seq<Category>> {
    if !(Header <= content) then Err(MissingHeader)
    else Ok(Group(Run(Start, Split(content, '\n')[1..], secure).channels))
  }

  method ParseM3U(content: string, secure: bool) returns (r: Result<seq<Category>>)
    ensures r == Parse(content, secure)
  {
    if !(Header <= content) {
      return Err(MissingHeader);
    }
    var lines := Split(content, '\n');
    var channels := ScanLines(lines, secure);
    var categories := GroupChannels(channels);
    return Ok(categories);
  }

  /** The `for` loop of `parseM3U`, from the second line on. */
  method ScanLines(lines: seq<string>, secure: bool) returns (channels: seq<Channel>)
    requires |lines| >= 1
    ensures channels == Run(Start, lines[1..], secure).channels
  {
    channels := [];
    var currentChannelInfo := Blank;
    var i := 1;
    while i < |lines|
      invariant 1 <= i <= |lines|
      invariant Run(Scanner(currentChannelInfo, channels), lines[i..], secure) == Run(Start, lines[1..], secure)
    {
      ghost var before := Scanner(currentChannelInfo, channels);
      assert lines[i..][1..] == lines[i + 1..];
      var line := Trim(lines[i]);
      if DirectiveTag <= line {
        currentChannelInfo := ParseDirective(Info(line));
      } else if line != "" && !("#" <= line) {
        if Truthy(currentChannelInfo.name) {
          channels := channels + [Emit(currentChannelInfo, line, secure)];
        }
        currentChannelInfo := Blank;
      }
      i := i + 1;
    }
  }

  // ---------------------------------------------------------------------------
  // Header and lines

  /** Content without the header is refused, whatever follows; content with it is accepted. */
  lemma HeaderRequired(content: string, secure: bool)
    ensures Parse(content, secure).Err? <==> !(Header <= content)
    ensures Parse(content, secure).Err? ==> Parse(content, secure).error == MissingHeader
  {
  }

  /** The first line is never scanned: only the header check reads it. */
  lemma FirstLineIgnored(first1: string, first2: string, rest: string, secure: bool)
    requires Header <= first1 && Header <= first2
    requires '\n' !in first1 && '\n' !in first2
    ensures Parse(first1 + "\n" + rest, secure) == Parse(first2 + "\n" + rest, secure)
  {
    assert Header <= first1 + "\n" + rest by { assert (first1 + "\n" + rest)[..|Header|] == first1[..|Header|]; }
    assert Header <= first2 + "\n" + rest by { assert (first2 + "\n" + rest)[..|Header|] == first2[..|Header|]; }
    SplitAfterFirst(first1, '\n', rest);
    SplitAfterFirst(first2, '\n', rest);
  }

  /** Lines are trimmed before they are classified: white space around a line changes nothing. */
  lemma StepIgnoresPadding(st: Scanner, pre: string, line: string, post: string, secure: bool)
    requires AllSpace(pre) && AllSpace(post)
    ensures Step(st, pre + Trim(line) + post, secure) == Step(st, line, secure)
  {
    var t := Trim(line);
    TrimShape(line);
    TrimPadded(pre, t, post);
    TrimIdempotent(line);
  }

  // ---------------------------------------------------------------------------
  // When a channel is emitted

  /** A step emits exactly one channel, for a location line with a named record pending, and
      keeps the channels before it. The record is cleared by every location line. */
  lemma StepEmission(st: Scanner, raw: string, secure: bool)
    ensures var next := Step(st, raw, secure);
            var line := Trim(raw);
            var emits := Classify(line) == Location && Truthy(st.pending.name);
            && (emits ==> next.channels == st.channels + [Emit(st.pending, line, secure)])
            && (!emits ==> next.channels == st.channels)
            && (Classify(line) == Location ==> next.pending == Blank)
            && (Classify(line) == Ignored ==> next == st)
  {
  }

  /** The fields of an emitted channel: the id joins the group, the name and the location as
      written in the playlist; the group defaults to `General`; only `url` and `logo` go through
      the proxy rewrite, and `url` is always present. */
  lemma EmittedFields(p: Pending, location: string, secure: bool)
    requires Truthy(p.name) && location != ""
    ensures var c := Emit(p, location, secure);
            var group := if Truthy(p.group) then p.group.value else DefaultGroup;
            && c.id == group + "-" + p.name.value + "-" + location
            && c.name == p.name.value && c.group == group && c.epgId == p.epgId
            && c.logo == Proxify(p.logo, secure)
            && Some(c.url) == Proxify(Some(location), secure) && c.url != ""
  {
  }

  /** A directive superseded by another directive leaves nothing behind. */
  lemma DirectiveSuperseded(st: Scanner, d1: string, d2: string, secure: bool)
    requires Classify(Trim(d1)) == Directive && Classify(Trim(d2)) == Directive
    ensures Step(Step(st, d1, secure), d2, secure) == Step(st, d2, secure)
  {
  }

  /** A location line with no named record pending emits nothing. */
  lemma OrphanLocation(st: Scanner, raw: string, secure: bool)
    requires Classify(Trim(raw)) == Location && !Truthy(st.pending.name)
    ensures Step(st, raw, secure) == Scanner(Blank, st.channels)
  {
  }

  lemma {:induction false} RunConcat(st: Scanner, a: seq<string>, b: seq<string>, secure: bool)
    ensures Run(st, a + b, secure) == Run(Run(st, a, secure), b, secure)
    decreases |a|
  {
    if a == [] {
      assert a + b == b;
    } else {
      assert (a + b)[1..] == a[1..] + b;
      RunConcat(Step(st, a[0], secure), a[1..], b, secure);
    }
  }

  predicate AllIgnored(lines: seq<string>) {
    forall k :: 0 <= k < |lines| ==> Classify(Trim(lines[k])) == Ignored
  }

  lemma {:induction false} RunIgnored(st: Scanner, lines: seq<string>, secure: bool)
    requires AllIgnored(lines)
    ensures Run(st, lines, secure) == st
    decreases |lines|
  {
    if lines != [] {
      RunIgnored(st, lines[1..], secure);
    }
  }

  /** A directive that yields a name, followed by blank and comment lines and then a location
      line, emits exactly one channel, made of that directive and that location. */
  lemma DirectiveThenLocation(st: Scanner, d: string, gap: seq<string>, u: string, secure: bool)
    requires Classify(Trim(d)) == Directive && AllIgnored(gap) && Classify(Trim(u)) == Location
    requires Truthy(ParseDirective(Info(Trim(d))).name)
    ensures Run(st, [d] + gap + [u], secure)
         == Scanner(Blank, st.channels + [Emit(ParseDirective(Info(Trim(d))), Trim(u), secure)])
  {
    var p := ParseDirective(Info(Trim(d)));
    var mid := Step(st, d, secure);
    assert mid == Scanner(p, st.channels);
    var rest := gap + [u];
    assert [d] + gap + [u] == [d] + rest;
    assert ([d] + rest)[1..] == rest;
    RunConcat(mid, gap, [u], secure);
    RunIgnored(mid, gap, secure);
    assert [u][1..] == [];
    assert Run(mid, [u], secure) == Step(mid, u, secure);
    StepEmission(mid, u, secure);
  }

  // ---------------------------------------------------------------------------
  // Counting

  function Count(lines: seq<string>, kind: LineKind): (n: nat)
    ensures n <= |lines|
  {
    if lines == [] then 0
    else (if Classify(Trim(lines[0])) == kind then 1 else 0) + Count(lines[1..], kind)
  }

  function PendingNamed(st: Scanner): nat {
    if Truthy(st.pending.name) then 1 else 0
  }

  /** Each channel uses up a named record, which only a directive makes, and a location line. */
  lemma {:induction false} RunBounded(st: Scanner, lines: seq<string>, secure: bool)
    ensures var end := Run(st, lines, secure);
            && |end.channels| + PendingNamed(end) <= |st.channels| + PendingNamed(st) + Count(lines, Directive)
            && |end.channels| <= |st.channels| + Count(lines, Location)
    decreases |lines|
  {
    if lines != [] {
      RunBounded(Step(st, lines[0], secure), lines[1..], secure);
    }
  }

  /** There are no more channels than directive lines, and no more than location lines. */
  lemma ChannelCountBound(content: string, secure: bool)
    requires Header <= content
    ensures var lines := Split(content, '\n')[1..];
            var chs := Run(Start, lines, secure).channels;
            |chs| <= Count(lines, Directive) && |chs| <= Count(lines, Location)
  {
    RunBounded(Start, Split(content, '\n')[1..], secure);
  }

  predicate WellNamed(chs: seq<Channel>) {
    forall k :: 0 <= k < |chs| ==> chs[k].name != "" && chs[k].group != "" && chs[k].url != ""
  }

  lemma StepWellNamed(st: Scanner, raw: string, secure: bool)
    requires WellNamed(st.channels)
    ensures WellNamed(Step(st, raw, secure).channels)
  {
    var line := Trim(raw);
    if Classify(line) == Location && Truthy(st.pending.name) {
      EmittedFields(st.pending, line, secure);
    }
  }

  /** Every scanned channel has a non-empty name, group and url. */
  lemma {:induction false} ChannelsNamed(st: Scanner, lines: seq<string>, secure: bool)
    requires WellNamed(st.channels)
    ensures WellNamed(Run(st, lines, secure).channels)
    decreases |lines|
  {
    if lines != [] {
      StepWellNamed(st, lines[0], secure);
      ChannelsNamed(Step(st, lines[0], secure), lines[1..], secure);
    }
  }
}
