/**
 * mcp_server.py: the two retrieval tools the MCP server exposes, over the
 * configuration initialize_server installs. The module globals
 * `_selected_data_names`, `_processor` and `_vector_db` are the fields of a
 * Server object.
 */
module McpServer {
  import opened Wrappers
  import opened Text
  import opened Chunking
  import opened VectorDb
  import Qdrant
  import Config

  const EMPTY_QUERY_MESSAGE: string := "錯誤: 查詢文字不能為空"
  const SEARCH_ERROR_PREFIX: string := "搜尋錯誤: "
  /** str(e) of the AttributeError raised when no processor was installed. */
  const NO_PROCESSOR_MESSAGE: string := "'NoneType' object has no attribute 'embed_text'"
  /** str(e) of the AttributeError raised when no database was installed. */
  const NO_DATABASE_MESSAGE: string := "'NoneType' object has no attribute 'search'"
  /** str(e) of the IndexError of `[0]` on an empty embedding list. */
  const INDEX_ERROR_MESSAGE: string := "list index out of range"
  const REPORT_TITLE: string := "# 搜尋結果"
  const MAX_LIMIT: int := 20
  /** The `limit` of search_documents (and of search) when the caller gives none. */
  const DEFAULT_LIMIT: int := 5

  /** `max(1, min(20, limit))`. */
  function ClampLimit(limit: int): (r: nat)
    ensures 1 <= r <= MAX_LIMIT
    ensures 1 <= limit <= MAX_LIMIT ==> r == limit
    ensures limit < 1 ==> r == 1
    ensures limit > MAX_LIMIT ==> r == MAX_LIMIT
  {
    var upper := if MAX_LIMIT < limit then MAX_LIMIT else limit;
    if 1 < upper then upper else 1
  }

  /** Clamping is idempotent, 0 becomes 1, 100 becomes 20, and the default
      limit passes unchanged. */
  lemma ClampLimitIdempotent(limit: int)
    ensures ClampLimit(ClampLimit(limit)) == ClampLimit(limit)
    ensures ClampLimit(0) == 1 && ClampLimit(100) == 20
    ensures ClampLimit(DEFAULT_LIMIT) == DEFAULT_LIMIT
  {
  }

  /** `_selected_data_names if _selected_data_names else None`. */
  function FilterNames(selected: seq<string>): (r: Option<seq<string>>)
    ensures r.None? <==> selected == []
    ensures r.Some? ==> r.value == selected
  {
    if selected == [] then None else Some(selected)
  }

  /** Passing None for an empty configuration searches the whole collection;
      otherwise exactly the configured names are searched. */
  lemma FilterNamesSearchScope(selected: seq<string>, p: Qdrant.Point)
    ensures Qdrant.Admits(BuildIntendedFilter(FilterNames(selected)), p) <==>
            selected == [] ||
            (p.payload.dataName.Some? && p.payload.dataName.value in selected)
  {
    BuildIntendedFilterMeaning(FilterNames(selected), p);
  }

  // ---------------------------------------------------------------------------
  // The search report

  function NoResultsReport(query: string): string
  {
    REPORT_TITLE + "\n\n未找到與「" + query + "」相關的文件。\n"
  }

  function ReportTitleLine(query: string): string
  {
    REPORT_TITLE + "：" + query + "\n\n"
  }

  function CountLine(n: nat): string
  {
    "找到 " + NatToString(n) + " 個相關結果\n\n"
  }

  function ReportHeader(query: string, n: nat): string
  {
    ReportTitleLine(query) + CountLine(n) + "---\n\n"
  }

  /** The section for one hit, numbered from 1: one line per `+=`. */
  function Section(number: nat, h: Hit, formatScore: real -> string): string
  {
    ("## " + NatToString(number) + ". " + h.fileName + "\n\n") +
    ("**資料來源**: " + h.dataName + "\n\n") +
    ("**相關度分數**: " + formatScore(h.score) + "\n\n") +
    "### 內容摘要\n\n" +
    (h.text + "\n\n") +
    "---\n\n"
  }

  function Sections(hits: seq<Hit>, formatScore: real -> string): seq<string>
  {
    seq(|hits|, i requires 0 <= i < |hits| => Section(i + 1, hits[i], formatScore))
  }

  /** The report for one or more hits: header, then one section per hit. */
  function ResultsReport(query: string, hits: seq<Hit>, formatScore: real -> string): string
  {
    ReportHeader(query, |hits|) + Concat(Sections(hits, formatScore))
  }

  /** The markdown search_documents returns for the hits of a search. */
  function Report(query: string, hits: seq<Hit>, formatScore: real -> string): string
  {
    if hits == [] then NoResultsReport(query) else ResultsReport(query, hits, formatScore)
  }

  /** What search_documents returns once the store has answered: the error
      text behind the prefix, or the report of the hits. */
  function SearchOutcome(query: string, results: Result<seq<Hit>>, formatScore: real -> string): string
  {
    if results.Failure? then SEARCH_ERROR_PREFIX + results.error
    else Report(query, results.value, formatScore)
  }

  /** With the `must` filter the source builds, search_documents over two
      different configured data sources always reports that nothing was
      found, whatever the collection holds. */
  lemma AsWrittenSearchReportsNothing(db: VectorDatabase, queryEmbedding: Vector, selected: seq<string>,
                                      limit: int, query: string, formatScore: real -> string)
    requires db.Valid() && |queryEmbedding| == db.VectorSize()
    requires HasTwoNames(selected)
    ensures SearchOutcome(query, db.SearchAsWritten(queryEmbedding, FilterNames(selected), ClampLimit(limit)),
                          formatScore) == NoResultsReport(query)
  {
  }

  /** The loop of search_documents after one more hit: the report so far is
      the header followed by the sections of the hits handled. */
  lemma ReportLoopStep(query: string, hits: seq<Hit>, formatScore: real -> string, idx: nat,
                       before: string, after: string)
    requires idx < |hits|
    requires before == ReportHeader(query, |hits|) + Concat(Sections(hits, formatScore)[..idx])
    requires after == before + Sections(hits, formatScore)[idx]
    ensures after == ReportHeader(query, |hits|) + Concat(Sections(hits, formatScore)[..idx + 1])
  {
    ConcatExtend(ReportHeader(query, |hits|), Sections(hits, formatScore), idx);
  }

  /** Every report starts with the title. */
  lemma ReportStartsWithTitle(query: string, hits: seq<Hit>, formatScore: real -> string)
    ensures StartsWith(Report(query, hits, formatScore), REPORT_TITLE)
  {
    if hits == [] {
      var a := REPORT_TITLE + "\n\n未找到與「";
      StartsWithAppend(REPORT_TITLE, REPORT_TITLE, "\n\n未找到與「");
      StartsWithAppend(a, REPORT_TITLE, query);
      StartsWithAppend(a + query, REPORT_TITLE, "」相關的文件。\n");
    } else {
      var t := REPORT_TITLE + "：";
      StartsWithAppend(REPORT_TITLE, REPORT_TITLE, "：");
      StartsWithAppend(t, REPORT_TITLE, query);
      StartsWithAppend(t + query, REPORT_TITLE, "\n\n");
      var h := ReportTitleLine(query);
      StartsWithAppend(h, REPORT_TITLE, CountLine(|hits|));
      StartsWithAppend(h + CountLine(|hits|), REPORT_TITLE, "---\n\n");
      StartsWithAppend(ReportHeader(query, |hits|), REPORT_TITLE, Concat(Sections(hits, formatScore)));
    }
  }

  /** The count line carries the number of hits, and reads back as it. */
  lemma ReportCountLine(query: string, hits: seq<Hit>, formatScore: real -> string)
    ensures PieceAt(ResultsReport(query, hits, formatScore), |ReportTitleLine(query)| + |"找到 "|, NatToString(|hits|))
    ensures ParseDecimal(NatToString(|hits|)) == |hits|
  {
    var title := ReportTitleLine(query);
    var o := |title| + |"找到 "|;
    NumberInLine(title, "找到 ", NatToString(|hits|), " 個相關結果\n\n");
    PieceStable(title + CountLine(|hits|), "---\n\n", o, NatToString(|hits|));
    PieceStable(ReportHeader(query, |hits|), Concat(Sections(hits, formatScore)), o, NatToString(|hits|));
    ParseNatToString(|hits|);
  }

  /** Hit k (in store order) has its own section, numbered k + 1, after the
      header and the sections before it. */
  lemma ReportSectionAt(query: string, hits: seq<Hit>, formatScore: real -> string, k: nat)
    requires k < |hits|
    ensures PieceAt(ResultsReport(query, hits, formatScore),
                    |ReportHeader(query, |hits|)| + TotalLength(Sections(hits, formatScore)[..k]),
                    Sections(hits, formatScore)[k])
  {
    ConcatPieceAfter(ReportHeader(query, |hits|), Sections(hits, formatScore), k);
  }

  // ---------------------------------------------------------------------------
  // The data source list

  const SOURCES_TITLE: string := "# 可檢索的資料來源\n\n"

  function Bullet(name: string): string
  {
    "- **" + name + "**\n"
  }

  function Bullets(names: seq<string>): seq<string>
  {
    seq(|names|, i requires 0 <= i < |names| => Bullet(names[i]))
  }

  function SourcesCountLine(n: nat): string
  {
    "本 MCP Server 提供以下 " + NatToString(n) + " 個資料來源:\n\n"
  }

  function SourcesHeader(n: nat): string
  {
    SOURCES_TITLE + SourcesCountLine(n)
  }

  /** The markdown list_data_sources returns. */
  function SourcesReport(names: seq<string>): string
  {
    if names == [] then SOURCES_TITLE + "目前沒有可用的資料來源。\n"
    else SourcesHeader(|names|) + Concat(Bullets(names))
  }

  /** The count line carries the number of configured names. */
  lemma SourcesCountRoundTrip(names: seq<string>)
    ensures PieceAt(SourcesHeader(|names|) + Concat(Bullets(names)),
                    |SOURCES_TITLE| + |"本 MCP Server 提供以下 "|, NatToString(|names|))
    ensures ParseDecimal(NatToString(|names|)) == |names|
  {
    var o := |SOURCES_TITLE| + |"本 MCP Server 提供以下 "|;
    NumberInLine(SOURCES_TITLE, "本 MCP Server 提供以下 ", NatToString(|names|), " 個資料來源:\n\n");
    PieceStable(SourcesHeader(|names|), Concat(Bullets(names)), o, NatToString(|names|));
    ParseNatToString(|names|);
  }

  /** Name k has its bullet, in configured order. */
  lemma SourcesBulletAt(names: seq<string>, k: nat)
    requires k < |names|
    ensures PieceAt(SourcesHeader(|names|) + Concat(Bullets(names)),
                    |SourcesHeader(|names|)| + TotalLength(Bullets(names)[..k]), Bullets(names)[k])
  {
    ConcatPieceAfter(SourcesHeader(|names|), Bullets(names), k);
  }

  /** An empty configuration says so, and names nothing. */
  lemma SourcesEmptyIff(names: seq<string>)
    ensures SourcesReport(names) == SOURCES_TITLE + "目前沒有可用的資料來源。\n" <==> names == []
  {
    if names != [] {
      var r := SourcesReport(names);
      var o := |SOURCES_TITLE|;
      assert r[o] == SourcesCountLine(|names|)[0];
    }
  }

  // ---------------------------------------------------------------------------
  // The server state

  class Server {
    var selectedDataNames: seq<string>
    var processor: DocumentProcessor?
    var vectorDb: VectorDatabase?
    /** `f"{score:.4f}"`; float formatting is left uninterpreted. */
    const formatScore: real -> string

    /** The module as imported: nothing configured yet. */
    constructor (formatScore: real -> string)
      ensures selectedDataNames == [] && processor == null && vectorDb == null
      ensures this.formatScore == formatScore
    {
      selectedDataNames := [];
      processor := null;
      vectorDb := null;
      this.formatScore := formatScore;
    }

    /** `initialize_server`: stores the names as given, and the supplied
        processor and database, building a default only for one that is
        missing (a processor over `convert` and `embed`, a database over the
        shared client, whose collection it ensures). */
    method InitializeServer(selected: seq<string>, processor: DocumentProcessor?, vectorDb: VectorDatabase?,
                            convert: string -> Result<string>, embed: seq<string> -> Result<seq<Vector>>,
                            sharedClient: Qdrant.QdrantClient)
      requires vectorDb == null && Config.COLLECTION_NAME in sharedClient.collections ==>
                 Qdrant.DistinctIds(sharedClient.collections[Config.COLLECTION_NAME].points)
      modifies this, sharedClient
      ensures selectedDataNames == selected
      ensures processor != null ==> this.processor == processor
      ensures processor == null ==>
                this.processor != null && fresh(this.processor) &&
                this.processor.convert == convert && this.processor.embed == embed
      ensures vectorDb != null ==>
                this.vectorDb == vectorDb && sharedClient.collections == old(sharedClient.collections)
      ensures vectorDb == null ==>
                this.vectorDb != null && fresh(this.vectorDb) && this.vectorDb.client == sharedClient &&
                sharedClient.collections == EnsuredCollections(old(sharedClient.collections)) &&
                this.vectorDb.Valid()
    {
      selectedDataNames := selected;
      if processor != null {
        this.processor := processor;
      } else {
        this.processor := new DocumentProcessor(convert, embed);
      }
      if vectorDb != null {
        this.vectorDb := vectorDb;
      } else {
        this.vectorDb := new VectorDatabase(sharedClient);
      }
    }

    /** The markdown for a list of hits, built piece by piece. */
    method FormatReport(query: string, hits: seq<Hit>) returns (markdown: string)
      ensures markdown == Report(query, hits, formatScore)
    {
      if hits == [] {
        markdown := REPORT_TITLE + "\n\n未找到與「" + query + "」相關的文件。\n";
      } else {
        markdown := REPORT_TITLE + "：" + query + "\n\n";
        markdown := markdown + ("找到 " + NatToString(|hits|) + " 個相關結果\n\n");
        markdown := markdown + "---\n\n";
        for idx := 0 to |hits|
          invariant markdown == ReportHeader(query, |hits|) + Concat(Sections(hits, formatScore)[..idx])
        {
          ghost var before := markdown;
          var result := hits[idx];
          markdown := markdown + ("## " + NatToString(idx + 1) + ". " + result.fileName + "\n\n");
          markdown := markdown + ("**資料來源**: " + result.dataName + "\n\n");
          markdown := markdown + ("**相關度分數**: " + formatScore(result.score) + "\n\n");
          markdown := markdown + "### 內容摘要\n\n";
          markdown := markdown + (result.text + "\n\n");
          markdown := markdown + "---\n\n";
          AppendSix(before, "## " + NatToString(idx + 1) + ". " + result.fileName + "\n\n",
                    "**資料來源**: " + result.dataName + "\n\n",
                    "**相關度分數**: " + formatScore(result.score) + "\n\n",
                    "### 內容摘要\n\n", result.text + "\n\n", "---\n\n");
          ReportLoopStep(query, hits, formatScore, idx, before, markdown);
        }
        assert Sections(hits, formatScore)[..|hits|] == Sections(hits, formatScore);
      }
    }

    /** `search_documents`: rejects the empty query, clamps the limit,
        embeds the query, searches the configured names (all data when none
        are configured) and formats the hits; every failure on the way comes
        back as text behind the error prefix, so the tool never raises. */
    method SearchDocuments(query: string, limit: int) returns (text: string)
      requires vectorDb != null ==> vectorDb.Valid()
      ensures query == [] ==> text == EMPTY_QUERY_MESSAGE
      ensures query != [] && processor == null ==> text == SEARCH_ERROR_PREFIX + NO_PROCESSOR_MESSAGE
      ensures query != [] && processor != null && processor.EmbedText([query]).Failure? ==>
                text == SEARCH_ERROR_PREFIX + processor.EmbedText([query]).error
      ensures query != [] && processor != null && processor.EmbedText([query]) == Success([]) ==>
                text == SEARCH_ERROR_PREFIX + INDEX_ERROR_MESSAGE
      ensures query != [] && processor != null && processor.EmbedText([query]).Success? &&
              processor.EmbedText([query]).value != [] ==>
                var queryEmbedding := processor.EmbedText([query]).value[0];
                if vectorDb == null then text == SEARCH_ERROR_PREFIX + NO_DATABASE_MESSAGE
                else
                  text == SearchOutcome(query, vectorDb.Search(queryEmbedding, FilterNames(selectedDataNames),
                                                               ClampLimit(limit)), formatScore)
      ensures text == EMPTY_QUERY_MESSAGE || StartsWith(text, SEARCH_ERROR_PREFIX) || StartsWith(text, REPORT_TITLE)
    {
      if query == [] {
        return EMPTY_QUERY_MESSAGE;
      }
      var lim := ClampLimit(limit);
      if processor == null {
        return SEARCH_ERROR_PREFIX + NO_PROCESSOR_MESSAGE;
      }
      var embedded := processor.EmbedText([query]);
      if embedded.Failure? {
        return SEARCH_ERROR_PREFIX + embedded.error;
      }
      if |embedded.value| == 0 {
        return SEARCH_ERROR_PREFIX + INDEX_ERROR_MESSAGE;
      }
      var queryEmbedding := embedded.value[0];
      if vectorDb == null {
        return SEARCH_ERROR_PREFIX + NO_DATABASE_MESSAGE;
      }
      var results := vectorDb.Search(queryEmbedding, FilterNames(selectedDataNames), lim);
      if results.Failure? {
        return SEARCH_ERROR_PREFIX + results.error;
      }
      text := FormatReport(query, results.value);
      ReportStartsWithTitle(query, results.value, formatScore);
    }

    /** `list_data_sources`: the configured names only; the store is not
        consulted. */
    method ListDataSources() returns (markdown: string)
      ensures markdown == SourcesReport(selectedDataNames)
    {
      markdown := SOURCES_TITLE;
      if selectedDataNames == [] {
        markdown := markdown + "目前沒有可用的資料來源。\n";
      } else {
        markdown := markdown + ("本 MCP Server 提供以下 " + NatToString(|selectedDataNames|) + " 個資料來源:\n\n");
        var bullets := Bullets(selectedDataNames);
        for i := 0 to |selectedDataNames|
          invariant markdown == SourcesHeader(|selectedDataNames|) + Concat(bullets[..i])
        {
          var name := selectedDataNames[i];
          markdown := markdown + ("- **" + name + "**\n");
          ConcatExtend(SourcesHeader(|selectedDataNames|), bullets, i);
        }
        assert bullets[..|selectedDataNames|] == bullets;
      }
    }
  }
}
