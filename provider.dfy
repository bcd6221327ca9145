/** The external image-search providers (bing_image_downloader's
    `downloader.download` and icrawler's `BingImageCrawler.crawl`), reduced to
    what the pipeline can observe of them: the requests it issues, in order,
    and, for the crawler, whether a call raises. The files a provider writes
    are not part of this module; the validator takes the file tree as input. */
module Provider {
  import opened Collections

  datatype Request =
    | DownloadCall(query: string, limit: int, outputDir: string)
    | CrawlCall(keyword: string, maxNum: int, rootDir: string, fileIdxOffset: int)

  function Term(r: Request): string {
    match r
    case DownloadCall(q, _, _) => q
    case CrawlCall(k, _, _, _) => k
  }

  /** The search terms of a sequence of requests, in order. */
  function Terms(rs: seq<Request>): (ts: seq<string>)
    ensures |ts| == |rs|
    ensures forall i :: 0 <= i < |rs| ==> ts[i] == Term(rs[i])
  {
    seq(|rs|, i requires 0 <= i < |rs| => Term(rs[i]))
  }

  class ImageProvider {
    /** Every call received so far, oldest first. */
    var requests: seq<Request>
    /** The crawls that raise, by keyword, with the text of the exception. */
    const failures: map<string, string>

    constructor(failures: map<string, string>)
      ensures requests == [] && this.failures == failures
    {
      requests := [];
      this.failures := failures;
    }

    method Download(query: string, limit: int, outputDir: string)
      modifies this
      ensures requests == old(requests) + [DownloadCall(query, limit, outputDir)]
    {
      requests := requests + [DownloadCall(query, limit, outputDir)];
    }

    method Crawl(keyword: string, maxNum: int, rootDir: string, fileIdxOffset: int) returns (error: Option<string>)
      modifies this
      ensures requests == old(requests) + [CrawlCall(keyword, maxNum, rootDir, fileIdxOffset)]
      ensures error == if keyword in failures then Some(failures[keyword]) else None
    {
      requests := requests + [CrawlCall(keyword, maxNum, rootDir, fileIdxOffset)];
      error := if keyword in failures then Some(failures[keyword]) else None;
    }
  }

  /** The directories that exist, as far as `os.makedirs(..., exist_ok=True)`
      is concerned: creating one that exists is not an error. */
  class Disk {
    var dirs: set<string>

    constructor(dirs: set<string>)
      ensures this.dirs == dirs
    {
      this.dirs := dirs;
    }

    method MakeDirs(path: string)
      modifies this
      ensures dirs == old(dirs) + {path}
    {
      dirs := dirs + {path};
    }
  }
}
