/**
 * Assembly of the download statistics shown in the bar chart: one request
 * per fixed window, in order, each decoded to a single count.
 */
module NpmStats {
  import opened Wrappers

  datatype StatEntry = StatEntry(period: string, value: int)

  const StatsBase := "https://api.npmjs.org/downloads/point"
  const PackageName := "neko-cli"
  /** The window tokens of the statistics endpoint, in request order. */
  const Tokens: seq<string> := ["last-day", "last-week", "last-month", "last-year"]
  /** The chart labels, position by position with `Tokens`. */
  const Labels: seq<string> := ["day", "week", "month", "year"]

  /** The endpoint queried for one window token; the token reads back from between the fixed parts. */
  function StatsUrl(token: string): (url: string)
    ensures |url| == |StatsBase| + 1 + |token| + 1 + |PackageName|
    ensures url[..|StatsBase| + 1] == StatsBase + "/"
    ensures url[|url| - |PackageName| - 1..] == "/" + PackageName
    ensures url[|StatsBase| + 1..|url| - |PackageName| - 1] == token
  {
    var url := StatsBase + "/" + token + "/" + PackageName;
    assert url[|StatsBase| + 1..|url| - |PackageName| - 1] == token;
    url
  }

  /**
   * Requests the four windows in order. `download(url)` is the decoded
   * `downloads` count of that endpoint, or `None` when the request or its
   * decoding throws; the first such failure aborts the whole call.
   */
  method FetchStats(download: string -> Option<int>) returns (r: Option<seq<StatEntry>>)
    ensures r.Some? <==> forall i :: 0 <= i < |Tokens| ==> download(StatsUrl(Tokens[i])).Some?
    ensures r.Some? ==> |r.value| == |Labels| == 4
    ensures r.Some? ==>
              forall i :: 0 <= i < |r.value| ==>
                r.value[i] == StatEntry(Labels[i], download(StatsUrl(Tokens[i])).value)
  {
    var entries: seq<StatEntry> := [];
    for index := 0 to |Tokens|
      invariant |entries| == index
      invariant forall i :: 0 <= i < index ==> download(StatsUrl(Tokens[i])).Some?
      invariant forall i :: 0 <= i < index ==>
                  entries[i] == StatEntry(Labels[i], download(StatsUrl(Tokens[i])).value)
    {
      var decoded := download(StatsUrl(Tokens[index]));
      if decoded.None? {
        return None;
      }
      entries := entries + [StatEntry(Labels[index], decoded.value)];
    }
    return Some(entries);
  }

  /** Each window token is its chart label prefixed by "last-", so the queried URLs are distinct. */
  lemma TokensMatchLabels()
    ensures |Tokens| == |Labels|
    ensures forall i :: 0 <= i < |Tokens| ==> Tokens[i] == "last-" + Labels[i]
    ensures forall i, j :: 0 <= i < j < |Tokens| ==> StatsUrl(Tokens[i]) != StatsUrl(Tokens[j])
  {
    forall i, j | 0 <= i < j < |Tokens| ensures StatsUrl(Tokens[i]) != StatsUrl(Tokens[j]) {
      assert Tokens[i] != Tokens[j];
    }
  }
}
