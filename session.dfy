/**
 * The end of a run: every extracted URL is downloaded in turn, the folder
 * carried from one download to the next, and the exit code says whether
 * anything succeeded.
 */
module Session {
  import opened Common
  import opened Formats
  import opened Files
  import opened Cookies
  import opened Orchestrator

  /** One download: the result for a URL and the folder it leaves. */
  type Downloader = (string, Disk) -> (DownloadResult, Disk)

  function DownloaderFor(service: Service, source: CookieSource, base: map<string, Value>): Downloader {
    (url: string, disk: Disk) => DownloadedVideo(Job(service, url, source, base), disk)
  }

  /** The results of downloading `urls` one after another, and the folder afterwards. */
  function DownloadedAll(download: Downloader, urls: seq<string>, disk: Disk): (seq<DownloadResult>, Disk)
    decreases |urls|
  {
    if urls == [] then ([], disk)
    else
      var (result, after) := download(urls[0], disk);
      var (rest, last) := DownloadedAll(download, urls[1..], after);
      ([result] + rest, last)
  }

  /** A download reports on the URL it was given. */
  lemma DownloadedVideoUrl(job: Job, disk: Disk)
    ensures DownloadedVideo(job, disk).0.url == job.url
  {
    if DownloadedVideo(job, disk).0.success {
      var k := DownloadSucceeded(job, disk);
    } else {
      DownloadFailed(job, disk);
    }
  }

  /** Each URL of the queue gets exactly one result, in queue order. */
  lemma {:induction false} DownloadedAllInOrder(service: Service, source: CookieSource, base: map<string, Value>, urls: seq<string>, disk: Disk)
    decreases |urls|
    ensures var results := DownloadedAll(DownloaderFor(service, source, base), urls, disk).0;
      |results| == |urls| && forall i :: 0 <= i < |urls| ==> results[i].url == urls[i]
  {
    if urls != [] {
      var download := DownloaderFor(service, source, base);
      var (result, after) := download(urls[0], disk);
      DownloadedVideoUrl(Job(service, urls[0], source, base), disk);
      DownloadedAllInOrder(service, source, base, urls[1..], after);
      var results := DownloadedAll(download, urls, disk).0;
      var rest := DownloadedAll(download, urls[1..], after).0;
      assert results == [result] + rest;
      forall i | 0 <= i < |urls|
        ensures results[i].url == urls[i]
      {
        if i > 0 {
          assert results[i] == rest[i - 1] && urls[i] == urls[1..][i - 1];
        }
      }
    }
  }

  /** `sum(1 for result in results if result.success)`. */
  function SuccessCount(results: seq<DownloadResult>): nat {
    if results == [] then 0
    else SuccessCount(results[..|results| - 1]) + (if results[|results| - 1].success then 1 else 0)
  }

  /** The count is the number of successful results, kept in their order. */
  lemma {:induction false} SuccessCountCountsSuccesses(results: seq<DownloadResult>)
    ensures SuccessCount(results) == |Filter(results, (r: DownloadResult) => r.success)|
  {
    if results != [] {
      SuccessCountCountsSuccesses(results[..|results| - 1]);
    }
  }

  /** The count is between 0 and the number of results, and 0 exactly when nothing succeeded. */
  lemma {:induction false} SuccessCountBounds(results: seq<DownloadResult>)
    ensures SuccessCount(results) <= |results|
    ensures SuccessCount(results) == 0 <==> forall i :: 0 <= i < |results| ==> !results[i].success
  {
    if results != [] {
      var init := results[..|results| - 1];
      SuccessCountBounds(init);
      assert forall i :: 0 <= i < |init| ==> init[i] == results[i];
    }
  }

  /** `1 if success_count == 0 else 0`. */
  /** `run`'s exit code: 1 exactly when no download succeeded, and 0 otherwise. */
  function ExitCode(results: seq<DownloadResult>): (code: int)
    ensures code == 1 <==> forall i :: 0 <= i < |results| ==> !results[i].success
    ensures code == 0 <==> exists i :: 0 <= i < |results| && results[i].success
  {
    SuccessCountBounds(results);
    if SuccessCount(results) == 0 then 1 else 0
  }

  /** The loop of `run` over the queue. */
  method DownloadAll(service: Service, source: CookieSource, base: map<string, Value>, urls: seq<string>, disk: Disk)
    returns (results: seq<DownloadResult>, after: Disk)
    ensures (results, after) == DownloadedAll(DownloaderFor(service, source, base), urls, disk)
  {
    ghost var download := DownloaderFor(service, source, base);
    ghost var all := DownloadedAll(download, urls, disk);
    results := [];
    after := disk;
    var k := 0;
    assert urls[k..] == urls;
    while k < |urls|
      invariant 0 <= k <= |urls|
      invariant all.0 == results + DownloadedAll(download, urls[k..], after).0
      invariant all.1 == DownloadedAll(download, urls[k..], after).1
    {
      assert urls[k..][0] == urls[k] && urls[k..][1..] == urls[k + 1..];
      var result, next := DownloadVideo(Job(service, urls[k], source, base), after);
      assert (result, next) == download(urls[k], after);
      results := results + [result];
      after := next;
      k := k + 1;
    }
    ghost var tail := DownloadedAll(download, urls[k..], after);
    assert tail == ([], after);
    assert results + tail.0 == results;
    assert all == (all.0, all.1) == (results, after);
  }

  /** The tail of `run`: the downloads, then the count and the exit code. */
  method RunQueue(service: Service, source: CookieSource, base: map<string, Value>, urls: seq<string>, disk: Disk)
    returns (code: int, successCount: nat, failedCount: int, results: seq<DownloadResult>, after: Disk)
    ensures (results, after) == DownloadedAll(DownloaderFor(service, source, base), urls, disk)
    ensures |results| == |urls| && successCount == SuccessCount(results)
    ensures failedCount == |urls| - successCount && 0 <= failedCount
    ensures forall i :: 0 <= i < |urls| ==> results[i].url == urls[i]
    ensures code == 1 <==> forall i :: 0 <= i < |results| ==> !results[i].success
    ensures code == 0 <==> exists i :: 0 <= i < |results| && results[i].success
  {
    results, after := DownloadAll(service, source, base, urls, disk);
    DownloadedAllInOrder(service, source, base, urls, disk);
    successCount := SuccessCount(results);
    SuccessCountBounds(results);
    failedCount := |urls| - successCount;
    code := ExitCode(results);
  }
}
