/** The reporter that turns the searches a provider ran into a bounded number of reports. */
module WebSearch {
  import opened Basics

  datatype Kind = Anthropic | OpenAi

  datatype Hit = Hit(url: string, title: string, publishedAt: Option<string>)

  /** A search to report. */
  datatype Search = Search(query: Option<string>, results: seq<Hit>)

  datatype Citation = Citation(title: Option<string>, snippet: Option<string>)

  datatype Reported = Reported(url: string, title: string, snippet: string, publishedAt: Option<string>, source: Kind)

  datatype Report = Report(query: Option<string>, hits: seq<Reported>)

  /** What a provider answered: the action it took, its queries, and what it found. */
  datatype Answer = Answer(action: Option<string>, queries: seq<string>, query: Option<string>, hits: seq<Hit>)

  /** The parts of a model stream that matter here; calls of other tools are `OtherPart`. */
  datatype Part =
    | ToolCall(id: string, query: Option<string>)
    | ToolResult(id: string, isError: bool, answer: Answer)
    | Source(url: string, title: Option<string>, citedText: Option<string>)
    | Finish
    | OtherPart

  datatype Options = Options(kind: Kind, maxReports: int)

  type Citations = seq<(string, Citation)>

  /* Pure parts. */

  function OrElse<T>(a: Option<T>, b: Option<T>): Option<T> {
    if a.Some? then a else b
  }

  /** The search an answer stands for; opening or reading a page is none. */
  function SearchOf(kind: Kind, a: Answer, callQuery: Option<string>): Option<Search> {
    match kind
    case Anthropic => Some(Search(callQuery, a.hits))
    case OpenAi =>
      if a.action.Some? && a.action.value != "search" then None
      else
        Some(Search(OrElse(if a.queries == [] then None else Some(a.queries[0]), OrElse(a.query, callQuery)), a.hits))
  }

  function CitationOf(cs: Citations, url: string): Option<Citation> {
    if cs == [] then None else if cs[0].0 == url then Some(cs[0].1) else CitationOf(cs[1..], url)
  }

  /** Records a citation: the first title and the first quoted text of a URL stay. */
  function Cite(cs: Citations, url: string, title: Option<string>, text: Option<string>): Citations {
    if cs == [] then [(url, Citation(title, text))]
    else if cs[0].0 == url then [(url, Citation(OrElse(cs[0].1.title, title), OrElse(cs[0].1.snippet, text)))] + cs[1..]
    else [cs[0]] + Cite(cs[1..], url, title, text)
  }

  function TextOr(t: Option<string>): string {
    if t.Some? then t.value else ""
  }

  function CitedHits(cs: Citations): seq<Hit> {
    Map((c: (string, Citation)) => Hit(c.0, TextOr(c.1.title), None), cs)
  }

  /** A last search without results gets what was cited. */
  function Filled(searches: seq<Search>, cs: Citations): (r: seq<Search>)
    requires searches != []
    ensures |r| == |searches|
  {
    var n := |searches| - 1;
    if searches[n].results == [] then searches[..n] + [searches[n].(results := CitedHits(cs))] else searches
  }

  function AllHits(searches: seq<Search>): seq<Hit> {
    if searches == [] then [] else searches[0].results + AllHits(searches[1..])
  }

  /** At most `remaining` searches; the last one allowed takes the hits of all that follow. */
  function Kept(searches: seq<Search>, remaining: nat): seq<Search>
    requires remaining > 0
  {
    if |searches| <= remaining then searches
    else searches[..remaining - 1] + [Search(searches[remaining - 1].query, AllHits(searches[remaining - 1..]))]
  }

  function ReportedHit(h: Hit, cs: Citations, kind: Kind): Reported {
    var c := CitationOf(cs, h.url);
    Reported(h.url,
             if h.title != "" then h.title else if c.Some? then TextOr(c.value.title) else "",
             if c.Some? then TextOr(c.value.snippet) else "",
             h.publishedAt, kind)
  }

  function ReportedHits(hits: seq<Hit>, cs: Citations, kind: Kind): (r: seq<Reported>)
    ensures |r| == |hits| && forall i :: 0 <= i < |hits| ==> r[i] == ReportedHit(hits[i], cs, kind)
  {
    Map((h: Hit) => ReportedHit(h, cs, kind), hits)
  }

  function ReportOf(s: Search, cs: Citations, kind: Kind): Report {
    Report(s.query, ReportedHits(s.results, cs, kind))
  }

  function ReportsOf(searches: seq<Search>, cs: Citations, kind: Kind): (r: seq<Report>)
    ensures |r| == |searches| && forall i :: 0 <= i < |searches| ==> r[i] == ReportOf(searches[i], cs, kind)
  {
    Map((s: Search) => ReportOf(s, cs, kind), searches)
  }

  /** The reports of a flush with this many left. */
  function Reports(searches: seq<Search>, cs: Citations, kind: Kind, remaining: int): seq<Report> {
    if searches == [] || remaining <= 0 then []
    else ReportsOf(Kept(Filled(searches, cs), remaining), cs, kind)
  }

  function AllReported(rs: seq<Report>): seq<Reported> {
    if rs == [] then [] else rs[0].hits + AllReported(rs[1..])
  }

  lemma {:induction false} HitsOfSum(a: seq<Search>, b: seq<Search>)
    ensures AllHits(a + b) == AllHits(a) + AllHits(b)
  {
    if a == [] {
      assert a + b == b;
    } else {
      assert (a + b)[1..] == a[1..] + b;
      HitsOfSum(a[1..], b);
    }
  }

  /** Joining the overflow keeps every hit, in order, and as many searches as there is room for. */
  lemma KeptIsWhole(searches: seq<Search>, remaining: nat)
    requires remaining > 0
    ensures |Kept(searches, remaining)| == if |searches| <= remaining then |searches| else remaining
    ensures AllHits(Kept(searches, remaining)) == AllHits(searches)
    ensures forall i :: 0 <= i < |Kept(searches, remaining)| ==> Kept(searches, remaining)[i].query == searches[i].query
  {
    if |searches| > remaining {
      var n := remaining - 1;
      var last := [Search(searches[n].query, AllHits(searches[n..]))];
      HitsOfSum(searches[..n], last);
      HitsOfSum(searches[..n], searches[n..]);
      assert searches == searches[..n] + searches[n..];
      assert last[1..] == [];
    }
  }

  lemma ReportedHitsOfSum(a: seq<Hit>, b: seq<Hit>, cs: Citations, kind: Kind)
    ensures ReportedHits(a + b, cs, kind) == ReportedHits(a, cs, kind) + ReportedHits(b, cs, kind)
  {
    hide ReportedHit;
  }

  lemma {:induction false} HitsAreReported(searches: seq<Search>, cs: Citations, kind: Kind)
    ensures AllReported(ReportsOf(searches, cs, kind)) == ReportedHits(AllHits(searches), cs, kind)
  {
    hide ReportedHits;
    if searches != [] {
      HitsAreReported(searches[1..], cs, kind);
      assert ReportsOf(searches, cs, kind)[1..] == ReportsOf(searches[1..], cs, kind);
      ReportedHitsOfSum(searches[0].results, AllHits(searches[1..]), cs, kind);
    }
  }

  /** A flush with a report left emits one report per search while there is room, the rest joined
      into the last, and together they hold every hit of the searches in order. */
  lemma FlushIsWhole(searches: seq<Search>, cs: Citations, kind: Kind, remaining: nat)
    requires searches != [] && remaining > 0
    ensures var rs := Reports(searches, cs, kind, remaining);
      && |rs| == (if |searches| <= remaining then |searches| else remaining)
      && AllReported(rs) == ReportedHits(AllHits(Filled(searches, cs)), cs, kind)
      && forall i :: 0 <= i < |rs| ==> rs[i].query == searches[i].query
  {
    hide ReportedHits, CitedHits, AllHits, AllReported, Kept;
    KeptIsWhole(Filled(searches, cs), remaining);
    HitsAreReported(Kept(Filled(searches, cs), remaining), cs, kind);
  }

  /* What a stream of parts leads to while the sink takes every report. */

  datatype Progress = Progress(
    reports: seq<Report>, reported: nat, calls: map<string, Option<string>>, pending: seq<Search>, citations: Citations)

  function AfterFlush(o: Options, st: Progress): Progress {
    var rs := Reports(st.pending, st.citations, o.kind, o.maxReports - st.reported);
    Progress(st.reports + rs, st.reported + |rs|, st.calls, [], [])
  }

  /** The search a part of the stream stands for, if any. */
  function Found(o: Options, calls: map<string, Option<string>>, part: Part): seq<Search> {
    if !part.ToolResult? || part.isError then []
    else
      match SearchOf(o.kind, part.answer, if part.id in calls then calls[part.id] else None)
      case None => []
      case Some(s) => [s]
  }

  function AfterPart(o: Options, st: Progress, part: Part): Progress {
    match part
    case ToolCall(id, query) => st.(calls := st.calls[id := query])
    case ToolResult(_, _, _) => st.(pending := st.pending + Found(o, st.calls, part))
    case Source(url, title, text) => st.(citations := Cite(st.citations, url, title, text))
    case Finish => AfterFlush(o, st)
    case OtherPart => st
  }

  function AfterParts(o: Options, st: Progress, parts: seq<Part>): Progress
    decreases |parts|
  {
    if parts == [] then st else AfterParts(o, AfterPart(o, st, parts[0]), parts[1..])
  }

  lemma {:induction false} AfterMoreParts(o: Options, st: Progress, parts: seq<Part>, last: Part)
    ensures AfterParts(o, st, parts + [last]) == AfterPart(o, AfterParts(o, st, parts), last)
    decreases |parts|
  {
    if parts == [] {
      assert [] + [last] == [last] && [last][1..] == [];
    } else {
      assert (parts + [last])[1..] == parts[1..] + [last];
      AfterMoreParts(o, AfterPart(o, st, parts[0]), parts[1..], last);
    }
  }

  /** How many searches the parts hold. */
  function SearchesIn(o: Options, calls: map<string, Option<string>>, parts: seq<Part>): nat
    decreases |parts|
  {
    if parts == [] then 0
    else
      |Found(o, calls, parts[0])|
      + SearchesIn(o, if parts[0].ToolCall? then calls[parts[0].id := parts[0].query] else calls, parts[1..])
  }

  function Min(a: int, b: int): int {
    if a <= b then a else b
  }

  lemma FlushCounts(o: Options, st: Progress)
    requires st.reported <= o.maxReports
    ensures AfterFlush(o, st).reported == Min(o.maxReports, st.reported + |st.pending|)
  {
    if st.pending != [] && o.maxReports > st.reported {
      FlushIsWhole(st.pending, st.citations, o.kind, o.maxReports - st.reported);
    }
  }

  /** However the parts come and wherever they are flushed, a call ends with as many reports as
      there were searches, up to the limit. */
  lemma {:induction false} CallReportsUpToLimit(o: Options, st: Progress, parts: seq<Part>)
    requires st.reported <= o.maxReports
    ensures AfterFlush(o, AfterParts(o, st, parts)).reported
         == Min(o.maxReports, st.reported + |st.pending| + SearchesIn(o, st.calls, parts))
    decreases |parts|
  {
    hide Reports, SearchOf, Cite;
    if parts == [] {
      FlushCounts(o, st);
    } else {
      var next := AfterPart(o, st, parts[0]);
      if parts[0].Finish? {
        FlushCounts(o, st);
      }
      CallReportsUpToLimit(o, next, parts[1..]);
    }
  }

  /* The reporter of one model run. */

  /** How a call to the provider went. */
  datatype Reply = Streamed | ToolRefused | CallFailed

  class Reporter {
    const options: Options
    var reported: nat
    var refused: bool
    /** How often the run was told that the tool is refused. */
    var notices: nat
    /** What has been reported. */
    var reports: seq<Report>
    var calls: map<string, Option<string>>
    var pending: seq<Search>
    var citations: Citations

    function State(): Progress
      reads this
    {
      Progress(reports, reported, calls, pending, citations)
    }

    ghost predicate Valid()
      reads this
    {
      && |reports| <= reported && (reported == 0 || reported <= options.maxReports)
      && notices == if refused then 1 else 0
    }

    constructor (options: Options)
      ensures Valid() && this.options == options && reports == [] && !refused && pending == [] && reported == 0
    {
      this.options := options;
      reported, refused, notices, reports := 0, false, 0, [];
      calls, pending, citations := map[], [], [];
    }

    /** Starts a model call: with the tool, unless it was refused before. Returns whether the call
        that answers carries the tool, or none if the call failed. */
    method Begin(reply: Reply) returns (withTool: Option<bool>)
      requires Valid()
      modifies this
      ensures Valid() && reports == old(reports) && reported == old(reported)
      ensures pending == [] && citations == []
      ensures withTool == if old(refused) then Some(false)
                          else match reply
                               case Streamed => Some(true)
                               case ToolRefused => Some(false)
                               case CallFailed => None
      ensures refused <==> old(refused) || reply == ToolRefused
    {
      calls, pending, citations := map[], [], [];
      if refused {
        return Some(false);
      }
      match reply {
        case Streamed => return Some(true);
        case CallFailed => return None;
        case ToolRefused =>
          refused, notices := true, notices + 1;
          return Some(false);
      }
    }

    /** Reports what is pending. The sink takes `takes` more reports before it fails, which ends the
        flush; a report that fails has been counted. */
    method Flush(takes: nat) returns (ok: bool)
      requires Valid()
      modifies this
      ensures Valid() && pending == [] && citations == [] && calls == old(calls)
      ensures var all := Reports(old(pending), old(citations), options.kind, options.maxReports - old(reported));
        && ok == (takes >= |all|)
        && reports == old(reports) + (if ok then all else all[..takes])
        && reported == old(reported) + (if ok then |all| else takes + 1)
      ensures refused == old(refused)
    {
      hide ReportOf, ReportedHits, CitedHits, CitationOf, AllHits, Kept, Filled;
      var searches, cited := pending, citations;
      pending, citations := [], [];
      var remaining := options.maxReports - reported;
      if searches == [] || remaining <= 0 {
        return true;
      }
      searches := FillLast(searches, cited);
      var kept := Kept(searches, remaining);
      KeptIsWhole(searches, remaining);
      ok := Emit(kept, cited, takes);
    }

    /** A search that answered no URLs is reported with what the model cited. */
    method FillLast(searches: seq<Search>, cited: Citations) returns (filled: seq<Search>)
      requires searches != []
      ensures filled == Filled(searches, cited)
    {
      var latest := searches[|searches| - 1];
      filled := searches;
      if latest.results == [] {
        filled := searches[..|searches| - 1] + [latest.(results := CitedHits(cited))];
      }
    }

    method Emit(kept: seq<Search>, cited: Citations, takes: nat) returns (ok: bool)
      requires Valid() && reported + |kept| <= options.maxReports
      modifies this`reported, this`reports
      ensures Valid()
      ensures var all := ReportsOf(kept, cited, options.kind);
        && ok == (takes >= |all|)
        && reports == old(reports) + (if ok then all else all[..takes])
        && reported == old(reported) + (if ok then |all| else takes + 1)
    {
      hide ReportOf;
      ghost var all := ReportsOf(kept, cited, options.kind);
      for i := 0 to |kept|
        invariant reported == old(reported) + i && i <= takes
        invariant reports == old(reports) + all[..i]
      {
        reported := reported + 1;
        if i == takes {
          return false;
        }
        assert all[..i + 1] == all[..i] + [all[i]];
        reports := reports + [ReportOf(kept[i], cited, options.kind)];
      }
      assert all[..|all|] == all;
      return true;
    }

    /** Takes note of one part of the stream. */
    method Observe(part: Part, takes: nat) returns (ok: bool)
      requires Valid()
      modifies this
      ensures Valid() && old(reports) <= reports && refused == old(refused)
      ensures !ok ==> part.Finish?
      ensures ok ==> State() == AfterPart(options, old(State()), part)
    {
      hide Reports, SearchOf, Cite;
      ok := true;
      match part {
        case ToolCall(id, query) =>
          calls := calls[id := query];
        case ToolResult(id, isError, answer) =>
          pending := pending + Found(options, calls, part);
        case Source(url, title, citedText) =>
          citations := Cite(citations, url, title, citedText);
        case Finish =>
          ok := Flush(takes);
        case OtherPart =>
      }
    }

    /** One streamed call: every part, then the end of the stream; cut off where a report fails.
        `takes` says for each flush how many reports the sink takes. */
    method Stream(parts: seq<Part>, takes: seq<nat>) returns (ok: bool)
      requires Valid() && |takes| == |parts| + 1
      modifies this
      ensures Valid() && old(reports) <= reports && refused == old(refused)
      ensures ok ==> State() == AfterFlush(options, AfterParts(options, old(State()), parts))
      ensures ok && old(reported) <= options.maxReports ==>
        reported == Min(options.maxReports, old(reported) + |old(pending)| + SearchesIn(options, old(calls), parts))
    {
      hide AfterPart, Reports, SearchesIn;
      for i := 0 to |parts|
        invariant Valid() && old(reports) <= reports && refused == old(refused)
        invariant State() == AfterParts(options, old(State()), parts[..i])
      {
        AfterMoreParts(options, old(State()), parts[..i], parts[i]);
        assert parts[..i + 1] == parts[..i] + [parts[i]];
        ok := Observe(parts[i], takes[i]);
        if !ok {
          return;
        }
      }
      assert parts[..|parts|] == parts;
      ok := Flush(takes[|parts|]);
      if old(reported) <= options.maxReports {
        CallReportsUpToLimit(options, old(State()), parts);
      }
    }
  }

  /** A model run: calls one after the other. Whatever the provider and the sink do, no more than
      `maxReports` reports are made, and the run hears of a refused tool at most once. */
  method RunCalls(options: Options, replies: seq<Reply>, parts: seq<seq<Part>>, takes: seq<seq<nat>>)
    returns (reports: seq<Report>, notices: nat)
    requires |replies| == |parts| == |takes| && forall i :: 0 <= i < |parts| ==> |takes[i]| == |parts[i]| + 1
    ensures |reports| == 0 || |reports| <= options.maxReports
    ensures notices <= 1 && (notices == 1 ==> ToolRefused in replies)
  {
    var reporter := new Reporter(options);
    for i := 0 to |replies|
      invariant reporter.Valid() && reporter.options == options
      invariant reporter.refused ==> ToolRefused in replies
    {
      var withTool := reporter.Begin(replies[i]);
      if withTool.Some? {
        var ok := reporter.Stream(parts[i], takes[i]);
      }
    }
    return reporter.reports, reporter.notices;
  }
}
