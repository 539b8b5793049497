/**
 * Media-source selection of the ExoPlayer adapter: direct classification of a
 * URI, the process-wide cache of resolved (redirect-followed) URLs, and the
 * outcome of the background probe.
 */
module SourceResolver {
  import opened Wrappers

  /** The content types the engine library infers from a URI. */
  datatype ContentType = Dash | SmoothStreaming | Hls | Other

  /** A parsed URI: its string form and its path component ("" when absent). */
  datatype Uri = Uri(text: string, path: string)

  /** Request headers given with the data source. */
  type Headers = map<string, string>

  /** The concrete sources the adapter builds, always for the requested URI. */
  datatype MediaSource =
    | ExtractorSource(uri: Uri, headers: Option<Headers>)
    | HlsSource(uri: Uri, headers: Option<Headers>)

  /** buildMediaSource's three outcomes: a source, null, or IllegalArgumentException. */
  datatype Build = Built(source: MediaSource) | Unclassified | Unsupported

  predicate EndsWith(s: string, suffix: string) {
    |suffix| <= |s| && s[|s| - |suffix|..] == suffix
  }

  /**
   * buildMediaSource: the type is inferred from the override URL when one is given,
   * otherwise from the URI; the extension tests look at the requested URI's path.
   */
  function BuildMediaSource(infer: string -> ContentType, uri: Uri, headers: Option<Headers>,
                            overrideUrl: Option<string>): (b: Build)
    ensures b.Built? ==> b.source.uri == uri && b.source.headers == headers
    ensures b.Unsupported? <==> infer(if overrideUrl.Some? then overrideUrl.value else uri.text) in {Dash, SmoothStreaming}
  {
    match infer(if overrideUrl.Some? then overrideUrl.value else uri.text)
    case Hls => Built(HlsSource(uri, headers))
    case Other =>
      if uri.path != "" && (EndsWith(uri.path, ".mp4") || EndsWith(uri.path, ".MP4")) then
        Built(ExtractorSource(uri, headers))
      else if uri.path != "" && (EndsWith(uri.path, ".m3u8") || EndsWith(uri.path, ".M3U8")) then
        Built(HlsSource(uri, headers))
      else Unclassified
    case Dash => Unsupported
    case SmoothStreaming => Unsupported
  }

  /** buildDefaultMediaSource: a progressive (extractor) source for the URI. */
  function DefaultMediaSource(uri: Uri, headers: Option<Headers>): MediaSource {
    ExtractorSource(uri, headers)
  }

  /** A progressive path extension selects the extractor, a playlist extension HLS, unless the type says otherwise. */
  lemma ExtensionClassification(infer: string -> ContentType, uri: Uri, headers: Option<Headers>)
    requires infer(uri.text) == Other
    ensures EndsWith(uri.path, ".mp4") || EndsWith(uri.path, ".MP4")
            ==> BuildMediaSource(infer, uri, headers, None) == Built(ExtractorSource(uri, headers))
    ensures !(EndsWith(uri.path, ".mp4") || EndsWith(uri.path, ".MP4")) && (EndsWith(uri.path, ".m3u8") || EndsWith(uri.path, ".M3U8"))
            ==> BuildMediaSource(infer, uri, headers, None) == Built(HlsSource(uri, headers))
    ensures BuildMediaSource(infer, uri, headers, None).Unclassified?
            <==> !(EndsWith(uri.path, ".mp4") || EndsWith(uri.path, ".MP4") || EndsWith(uri.path, ".m3u8") || EndsWith(uri.path, ".M3U8"))
  {
    var mp4 := EndsWith(uri.path, ".mp4") || EndsWith(uri.path, ".MP4");
    var m3u8 := EndsWith(uri.path, ".m3u8") || EndsWith(uri.path, ".M3U8");
    if uri.path == "" {
      assert !mp4 && !m3u8;
    }
    assert BuildMediaSource(infer, uri, headers, None)
        == if mp4 then Built(ExtractorSource(uri, headers))
           else if m3u8 then Built(HlsSource(uri, headers))
           else Unclassified;
  }

  /** ConcurrentHashMap.get followed by TextUtils.isEmpty: a missing key reads as "". */
  function Lookup(cache: map<string, string>, url: string): (v: string)
    ensures v != "" ==> url in cache && cache[url] == v
    ensures url in cache ==> v == cache[url]
    ensures url !in cache ==> v == ""
  {
    if url in cache then cache[url] else ""
  }

  /** What prepareAsync does with the URI once the engine is stopped. */
  datatype Resolution =
    | PrepareNow(source: MediaSource)
    | StartProbe(url: string)
    | ThrowsIllegalArgument

  /**
   * prepareAsync's decision: classify the URI; when that fails, use a non-empty
   * cached resolution (falling back to the default source); only on a cache miss
   * start a probe.
   */
  function Resolve(infer: string -> ContentType, uri: Uri, headers: Option<Headers>,
                   cache: map<string, string>): (r: Resolution)
    ensures var first := BuildMediaSource(infer, uri, headers, None);
            first.Built? ==> r == PrepareNow(first.source)
    ensures r.PrepareNow? ==> r.source.uri == uri && r.source.headers == headers
    ensures r.StartProbe? ==> r.url == uri.text && Lookup(cache, uri.text) == ""
    ensures r.ThrowsIllegalArgument?
            <==> BuildMediaSource(infer, uri, headers, None).Unsupported?
                 || (BuildMediaSource(infer, uri, headers, None).Unclassified? && Lookup(cache, uri.text) != ""
                     && BuildMediaSource(infer, uri, headers, Some(Lookup(cache, uri.text))).Unsupported?)
  {
    match BuildMediaSource(infer, uri, headers, None)
    case Built(s) => PrepareNow(s)
    case Unsupported => ThrowsIllegalArgument
    case Unclassified =>
      var realUrl := Lookup(cache, uri.text);
      if realUrl != "" then
        match BuildMediaSource(infer, uri, headers, Some(realUrl))
        case Built(s) => PrepareNow(s)
        case Unclassified => PrepareNow(DefaultMediaSource(uri, headers))
        case Unsupported => ThrowsIllegalArgument
      else StartProbe(uri.text)
  }

  /** A classification hit decides without the cache: any two caches give the same result. */
  lemma ClassificationIgnoresCache(infer: string -> ContentType, uri: Uri, headers: Option<Headers>,
                                   c1: map<string, string>, c2: map<string, string>)
    requires !BuildMediaSource(infer, uri, headers, None).Unclassified?
    ensures Resolve(infer, uri, headers, c1) == Resolve(infer, uri, headers, c2)
    ensures !Resolve(infer, uri, headers, c1).StartProbe?
  {
  }

  /** A probe is started exactly when classification fails and the cache holds nothing usable. */
  lemma ProbeOnlyOnMiss(infer: string -> ContentType, uri: Uri, headers: Option<Headers>, cache: map<string, string>)
    ensures Resolve(infer, uri, headers, cache).StartProbe?
            <==> BuildMediaSource(infer, uri, headers, None).Unclassified? && Lookup(cache, uri.text) == ""
    ensures Resolve(infer, uri, headers, cache).StartProbe? ==> Resolve(infer, uri, headers, cache).url == uri.text
  {
  }

  /** What the probe's completion (onPostExecute) does with its result. */
  datatype ProbeOutcome =
    | PrepareAndCache(source: MediaSource, cacheWrite: Option<(string, string)>)
    | CrashesIllegalArgument

  /**
   * onPostExecute: a redirect target picks the source and is then cached under the
   * requested URL; no target prepares the default source and caches nothing.
   */
  function AfterProbe(infer: string -> ContentType, uri: Uri, headers: Option<Headers>,
                      url: string, result: Option<string>): (o: ProbeOutcome)
    ensures o.PrepareAndCache? && o.cacheWrite.Some? <==> result.Some? && !BuildMediaSource(infer, uri, headers, result).Unsupported?
    ensures o.PrepareAndCache? && o.cacheWrite.Some? ==> o.cacheWrite.value == (url, result.value)
    ensures result.None? ==> o == PrepareAndCache(DefaultMediaSource(uri, headers), None)
    ensures o.CrashesIllegalArgument? <==> result.Some? && BuildMediaSource(infer, uri, headers, result).Unsupported?
    ensures result.Some? && BuildMediaSource(infer, uri, headers, result).Built?
            ==> o.PrepareAndCache? && o.source == BuildMediaSource(infer, uri, headers, result).source
    ensures result.Some? && BuildMediaSource(infer, uri, headers, result).Unclassified?
            ==> o.PrepareAndCache? && o.source == DefaultMediaSource(uri, headers)
  {
    if result.Some? then
      match BuildMediaSource(infer, uri, headers, result)
      case Built(s) => PrepareAndCache(s, Some((url, result.value)))
      case Unclassified => PrepareAndCache(DefaultMediaSource(uri, headers), Some((url, result.value)))
      case Unsupported => CrashesIllegalArgument
    else PrepareAndCache(DefaultMediaSource(uri, headers), None)
  }

  /** onCancelled: only a non-empty result is cached. */
  function CancelledWrite(url: string, result: Option<string>): (w: Option<(string, string)>)
    ensures w.Some? <==> result.Some? && result.value != ""
    ensures w.Some? ==> w.value == (url, result.value)
  {
    if result.Some? && result.value != "" then Some((url, result.value)) else None
  }

  /**
   * Cache correctness: once a successful probe for a URI has been cached, resolving
   * the same URI again (from this or any other player) starts no probe and
   * prepares the very source the probe's completion prepared.
   */
  lemma ProbeThenCacheHit(infer: string -> ContentType, uri: Uri, headers: Option<Headers>,
                          cache: map<string, string>, result: string)
    requires Resolve(infer, uri, headers, cache) == StartProbe(uri.text)
    requires result != ""
    requires AfterProbe(infer, uri, headers, uri.text, Some(result)).PrepareAndCache?
    ensures var o := AfterProbe(infer, uri, headers, uri.text, Some(result));
            Resolve(infer, uri, headers, cache[uri.text := result]) == PrepareNow(o.source)
  {
    ProbeOnlyOnMiss(infer, uri, headers, cache);
    assert Lookup(cache[uri.text := result], uri.text) == result;
  }

  /**
   * End-to-end: a progressive-looking URL that classification cannot place is
   * probed on a cache miss, and after the probe's redirect target is cached a
   * second resolution is immediate and probe-free.
   */
  lemma EndToEndScenario(infer: string -> ContentType)
    requires forall u :: infer(u) == Other
    ensures var uri := Uri("http://host/a", "/a");
            var cdn := "http://cdn/a.mp4?sig=1";
            && Resolve(infer, uri, None, map[]) == StartProbe("http://host/a")
            && AfterProbe(infer, uri, None, "http://host/a", Some(cdn))
               == PrepareAndCache(ExtractorSource(uri, None), Some(("http://host/a", cdn)))
            && Resolve(infer, uri, None, map["http://host/a" := cdn]) == PrepareNow(ExtractorSource(uri, None))
  {
    var uri := Uri("http://host/a", "/a");
    assert !EndsWith(uri.path, ".mp4") && !EndsWith(uri.path, ".MP4");
    assert !EndsWith(uri.path, ".m3u8") && !EndsWith(uri.path, ".M3U8");
  }

  /** The process-wide map from requested URL to resolved URL; entries are never evicted. */
  class UrlCache {
    var entries: map<string, string>

    constructor ()
      ensures entries == map[]
    {
      entries := map[];
    }

    /** get followed by isEmpty's reading of null as "". */
    method Get(url: string) returns (realUrl: string)
      ensures realUrl == Lookup(entries, url)
      ensures realUrl != "" ==> url in entries && entries[url] == realUrl
    {
      realUrl := if url in entries then entries[url] else "";
    }

    /** put: the last writer wins. */
    method Put(url: string, realUrl: string)
      modifies this
      ensures entries == old(entries)[url := realUrl]
    {
      entries := entries[url := realUrl];
    }
  }
}
