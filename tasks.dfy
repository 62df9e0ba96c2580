/**
 * The Luigi task graph of luigi_tasks.py as plain descriptors: which tasks a
 * run creates, with which parameters, which task each one requires, the paths
 * of their targets and when a task counts as complete.  The framework itself
 * (scheduling, targets that read and write files or S3 objects, pickling) is
 * not modelled; whether a target exists is a set of present paths.
 */
module Tasks {
  import opened Results
  import opened Strings
  import opened Dicts
  import opened Globals
  import opened Correlate
  import opened Timestamps

  /**
   * The process configuration: `VIDEO_PATH`, `S3_ROOT` (None when the
   * environment variable is unset) and `CACHE_PATH`, i.e.
   * `os.path.join(DATA_PATH, 'tmp/luigi_cache')`.
   */
  datatype Config = Config(videoPath: string, s3Root: Option<string>, cachePath: string)

  // ---------------------------------------------------------------------------
  // SaveLectureData: the per-course cache file
  // ---------------------------------------------------------------------------

  /** `SaveLectureData.output`: `CACHE_PATH/<segment 4 of the course URL>.pkl`; IndexError for a URL with fewer segments. */
  function CacheTarget(cfg: Config, masterUrl: string): Result<string> {
    var classId := Id1(masterUrl);
    if classId.None? then Err(IndexError) else Ok(PathJoin(cfg.cachePath, classId.value + ".pkl"))
  }

  lemma PathJoinInjective(a: string, b1: string, b2: string)
    requires !StartsWith(b1, "/") && !StartsWith(b2, "/")
    requires PathJoin(a, b1) == PathJoin(a, b2)
    ensures b1 == b2
  {
    if |a| == 0 || a[|a| - 1] == '/' {
      assert b1 == PathJoin(a, b1)[|a|..];
    } else {
      assert b1 == PathJoin(a, b1)[|a| + 1..];
    }
  }

  lemma Id1AvoidsSlash(url: string)
    requires Id1(url).Some?
    ensures '/' !in Id1(url).value
  {
    SplitPiecesAvoidSeparator(url, '/');
  }

  /** Two course URLs share one cache file exactly when their segment 4 is the same. */
  lemma CacheTargetSharedIff(cfg: Config, url1: string, url2: string)
    requires Id1(url1).Some? && Id1(url2).Some?
    ensures CacheTarget(cfg, url1).Ok? && CacheTarget(cfg, url2).Ok?
    ensures CacheTarget(cfg, url1) == CacheTarget(cfg, url2) <==> Id1(url1) == Id1(url2)
  {
    var b1, b2 := Id1(url1).value + ".pkl", Id1(url2).value + ".pkl";
    if CacheTarget(cfg, url1) == CacheTarget(cfg, url2) {
      Id1AvoidsSlash(url1);
      Id1AvoidsSlash(url2);
      assert !StartsWith(b1, "/") by { if |Id1(url1).value| > 0 { assert b1[0] == Id1(url1).value[0]; } }
      assert !StartsWith(b2, "/") by { if |Id1(url2).value| > 0 { assert b2[0] == Id1(url2).value[0]; } }
      PathJoinInjective(cfg.cachePath, b1, b2);
      assert Id1(url1).value == b1[..|b1| - 4] == b2[..|b2| - 4] == Id1(url2).value;
    }
  }

  /** A URL without a segment 4 makes the cache target raise IndexError. */
  lemma CacheTargetFails(cfg: Config, url: string)
    ensures CacheTarget(cfg, url).Err? <==> |Split(url, "/")| <= 4
    ensures CacheTarget(cfg, url).Err? ==> CacheTarget(cfg, url).error == IndexError
  {
  }

  // ---------------------------------------------------------------------------
  // lecture tasks
  // ---------------------------------------------------------------------------

  /** Whether a wrapper run downloads (`DownloadAllLectures`) or uploads (`UploadAllLectures`). */
  datatype Mode = Download | Upload

  /** `DownloadLecture` / `UploadLecture` and their parameters. */
  datatype LectureTask = LectureTask(mode: Mode, baseFileName: string, url: string, player: Player, timeoutMax: Option<int>)

  /** `DownloadSlides` / `UploadSlides` and their parameters. */
  datatype SlideTask = SlideTask(mode: Mode, title: string, pageSource: string, isTestRun: bool)

  /** `DownloadLecture.output`: `VIDEO_PATH/<clean name>.mp4`. */
  function LocalLectureTarget(cfg: Config, baseFileName: string): string {
    PathJoin(cfg.videoPath, CleanFileName(baseFileName) + ".mp4")
  }

  /** `UploadLecture.output`: `S3_ROOT + '/' + <clean name> + '.mp4'`; TypeError when `S3_ROOT` is None. */
  function S3LectureTarget(cfg: Config, baseFileName: string): Result<string> {
    if cfg.s3Root.None? then Err(TypeError) else Ok(cfg.s3Root.value + "/" + CleanFileName(baseFileName) + ".mp4")
  }

  function LectureOutput(cfg: Config, task: LectureTask): Result<string> {
    match task.mode
    case Download => Ok(LocalLectureTarget(cfg, task.baseFileName))
    case Upload => S3LectureTarget(cfg, task.baseFileName)
  }

  /** `requires`: nothing for a download, the download with the same parameters for an upload. */
  function LectureRequires(task: LectureTask): Option<LectureTask> {
    if task.mode == Download then None else Some(task.(mode := Download))
  }

  /**
   * An upload requires exactly the download of the same lecture, whose target
   * is the local file; and the local and S3 targets end in the same cleaned
   * file name, free of forbidden characters.
   */
  lemma UploadRequiresSameDownload(cfg: Config, task: LectureTask)
    requires task.mode == Upload
    ensures var req := LectureRequires(task);
            && req.Some? && req.value.mode == Download
            && req.value.baseFileName == task.baseFileName && req.value.url == task.url
            && req.value.player == task.player && req.value.timeoutMax == task.timeoutMax
            && LectureOutput(cfg, req.value) == Ok(LocalLectureTarget(cfg, task.baseFileName))
  {
  }

  lemma DownloadRequiresNothing(task: LectureTask)
    requires task.mode == Download
    ensures LectureRequires(task).None?
  {
  }

  /** Below a root without a trailing `/`, both targets are `<root>/<clean name>.mp4`, the name keeping the length of the base name and none of the forbidden characters. */
  lemma LectureTargetsShareName(cfg: Config, baseFileName: string)
    requires |cfg.videoPath| > 0 && cfg.videoPath[|cfg.videoPath| - 1] != '/'
    ensures var name := CleanFileName(baseFileName);
            && LocalLectureTarget(cfg, baseFileName) == cfg.videoPath + "/" + name + ".mp4"
            && (cfg.s3Root.Some? ==> S3LectureTarget(cfg, baseFileName) == Ok(cfg.s3Root.value + "/" + name + ".mp4"))
            && (cfg.s3Root.None? ==> S3LectureTarget(cfg, baseFileName) == Err(TypeError))
            && |name| == |baseFileName|
            && forall i :: 0 <= i < |name| ==> !IsForbidden(name[i])
  {
    PathJoinClean(cfg.videoPath, baseFileName, ".mp4");
    CleanFileNameIsClean(baseFileName);
  }

  /** `download_lecture`'s cap: a task without `timeout_max` may run for an hour (in seconds). */
  function EffectiveTimeout(timeoutMax: Option<int>): int {
    if timeoutMax.None? then 60 * 60 else timeoutMax.value
  }

  /** The `timeout_max` every lecture task of a run gets: 1 in a test run, otherwise unset. */
  function TestTimeout(isTestRun: bool): Option<int> {
    if isTestRun then Some(1) else None
  }

  /** A test run gives each download a cap of one second, a full run a cap of an hour. */
  lemma TimeoutOfRun(isTestRun: bool)
    ensures EffectiveTimeout(TestTimeout(isTestRun)) == if isTestRun then 1 else 3600
  {
  }

  // ---------------------------------------------------------------------------
  // ProcessAllLectures.run: expanding the saved data into tasks
  // ---------------------------------------------------------------------------

  /** The dict pickled by `SaveLectureData`. */
  datatype SavedData = SavedData(titleToBest: Dict<seq<string>>, player: Player, titleToPageSource: Dict<string>)

  /** The parameters of a wrapper run. */
  datatype Run = Run(mode: Mode, processSlides: bool, isTestRun: bool)

  /** The tasks a run hands to `build`. */
  datatype Expansion = Expansion(lectures: seq<LectureTask>, slides: seq<SlideTask>)

  /** `title + ' - perspective' + str(i)`. */
  function PerspectiveName(title: string, i: nat): string {
    title + " - perspective" + Decimal(i)
  }

  /** The lecture task of the `i`-th URL of a title. */
  function LectureTaskOf(run: Run, player: Player, title: string, urls: seq<string>, i: nat): LectureTask
    requires i < |urls|
  {
    LectureTask(run.mode, PerspectiveName(title, i), urls[i], player, TestTimeout(run.isTestRun))
  }

  /** The lecture tasks of one title, one per URL, in URL order. */
  function PerspectiveTasks(run: Run, player: Player, title: string, urls: seq<string>): seq<LectureTask> {
    seq(|urls|, i requires 0 <= i < |urls| => LectureTaskOf(run, player, title, urls, i))
  }

  /** The lecture tasks of the first `n` titles. */
  function LectureTasksUpTo(run: Run, data: SavedData, n: nat): seq<LectureTask>
    requires n <= |data.titleToBest|
  {
    if n == 0 then []
    else
      var (title, urls) := data.titleToBest[n - 1];
      LectureTasksUpTo(run, data, n - 1) + PerspectiveTasks(run, data.player, title, urls)
  }

  /** `player_type == 'panopto' and self.process_slides is True`. */
  predicate WantsSlides(run: Run, player: Player) {
    player == Panopto && run.processSlides
  }

  /** The slide tasks of the first `n` titles; KeyError for a title without a saved page source. */
  function SlideTasksUpTo(run: Run, data: SavedData, n: nat): Result<seq<SlideTask>>
    requires n <= |data.titleToBest|
  {
    if n == 0 then Ok([])
    else
      var prev := SlideTasksUpTo(run, data, n - 1);
      var title := data.titleToBest[n - 1].0;
      var page := Get(data.titleToPageSource, title);
      if prev.Err? || !WantsSlides(run, data.player) then prev
      else if page.None? then Err(KeyError)
      else Ok(prev.value + [SlideTask(run.mode, title, page.value, run.isTestRun)])
  }

  /** The expansion of the whole saved data. */
  function ExpandSpec(run: Run, data: SavedData): Result<Expansion> {
    var n := |data.titleToBest|;
    var slides := SlideTasksUpTo(run, data, n);
    if slides.Err? then Err(slides.error) else Ok(Expansion(LectureTasksUpTo(run, data, n), slides.value))
  }

  /** The number of URLs of the first `n` titles. */
  function UrlCount(titles: Dict<seq<string>>, n: nat): nat
    requires n <= |titles|
  {
    if n == 0 then 0 else UrlCount(titles, n - 1) + |titles[n - 1].1|
  }

  lemma {:induction false} UrlCountGrows(titles: Dict<seq<string>>, m: nat, n: nat)
    requires m <= n <= |titles|
    ensures UrlCount(titles, m) <= UrlCount(titles, n)
    decreases n
  {
    if m < n {
      UrlCountGrows(titles, m, n - 1);
    }
  }

  /** There are as many lecture tasks as URLs. */
  lemma {:induction false} LectureCount(run: Run, data: SavedData, n: nat)
    requires n <= |data.titleToBest|
    ensures |LectureTasksUpTo(run, data, n)| == UrlCount(data.titleToBest, n)
    decreases n
  {
    if n > 0 {
      LectureCount(run, data, n - 1);
    }
  }

  /**
   * Title order, then URL order: the task of the `i`-th URL of title `t` sits
   * right after the tasks of the titles before `t`, is named with its 0-based
   * number, and carries the run's mode, the player and the test-run timeout.
   */
  lemma {:induction false} LecturePositions(run: Run, data: SavedData, n: nat, t: nat, i: nat)
    requires n <= |data.titleToBest| && t < n && i < |data.titleToBest[t].1|
    ensures UrlCount(data.titleToBest, t) + i < |LectureTasksUpTo(run, data, n)|
    ensures LectureTasksUpTo(run, data, n)[UrlCount(data.titleToBest, t) + i] ==
            LectureTask(run.mode, PerspectiveName(data.titleToBest[t].0, i), data.titleToBest[t].1[i], data.player, TestTimeout(run.isTestRun))
    decreases n
  {
    var titles := data.titleToBest;
    LectureCount(run, data, n - 1);
    if t < n - 1 {
      LecturePositions(run, data, n - 1, t, i);
    } else {
      assert UrlCount(titles, t) + i - |LectureTasksUpTo(run, data, n - 1)| == i;
    }
  }

  /** Every lecture task has the run's mode, the saved player, the test-run timeout and a perspective name. */
  lemma {:induction false} LectureTasksUniform(run: Run, data: SavedData, n: nat)
    requires n <= |data.titleToBest|
    ensures forall k :: 0 <= k < |LectureTasksUpTo(run, data, n)| ==>
              var task := LectureTasksUpTo(run, data, n)[k];
              && task.mode == run.mode && task.player == data.player
              && task.timeoutMax == TestTimeout(run.isTestRun)
              && exists t, i :: 0 <= t < n && 0 <= i < |data.titleToBest[t].1| && task.baseFileName == PerspectiveName(data.titleToBest[t].0, i)
    decreases n
  {
    if n > 0 {
      LectureTasksUniform(run, data, n - 1);
      var prev := LectureTasksUpTo(run, data, n - 1);
      var all := LectureTasksUpTo(run, data, n);
      forall k | |prev| <= k < |all|
        ensures exists t, i :: 0 <= t < n && 0 <= i < |data.titleToBest[t].1| && all[k].baseFileName == PerspectiveName(data.titleToBest[t].0, i)
      {
        assert all[k].baseFileName == PerspectiveName(data.titleToBest[n - 1].0, k - |prev|);
      }
      forall k | 0 <= k < |prev|
        ensures exists t, i :: 0 <= t < n && 0 <= i < |data.titleToBest[t].1| && all[k].baseFileName == PerspectiveName(data.titleToBest[t].0, i)
      {
        assert all[k] == prev[k];
      }
    }
  }

  lemma {:induction false} SlideErrorSticks(run: Run, data: SavedData, n: nat, m: nat)
    requires n <= m <= |data.titleToBest| && SlideTasksUpTo(run, data, n).Err?
    ensures SlideTasksUpTo(run, data, m) == Err(KeyError)
    decreases m
  {
    if m > n {
      SlideErrorSticks(run, data, n, m - 1);
    } else {
      SlideOnlyKeyError(run, data, n);
    }
  }

  lemma {:induction false} SlideOnlyKeyError(run: Run, data: SavedData, n: nat)
    requires n <= |data.titleToBest|
    ensures SlideTasksUpTo(run, data, n).Err? ==> SlideTasksUpTo(run, data, n) == Err(KeyError)
    decreases n
  {
    if n > 0 {
      SlideOnlyKeyError(run, data, n - 1);
    }
  }

  /** Without slides wanted there are none; with slides wanted there is exactly one per title, in title order, with the title's page source. */
  lemma {:induction false} SlideTasksPerTitle(run: Run, data: SavedData, n: nat)
    requires n <= |data.titleToBest| && SlideTasksUpTo(run, data, n).Ok?
    ensures var slides := SlideTasksUpTo(run, data, n).value;
            && (!WantsSlides(run, data.player) ==> slides == [])
            && (WantsSlides(run, data.player) ==>
                  |slides| == n &&
                  forall t :: 0 <= t < n ==>
                    var title := data.titleToBest[t].0;
                    Get(data.titleToPageSource, title).Some? &&
                    slides[t] == SlideTask(run.mode, title, Get(data.titleToPageSource, title).value, run.isTestRun))
    decreases n
  {
    if n > 0 {
      SlideTasksPerTitle(run, data, n - 1);
    }
  }

  /** The expansion fails, with KeyError, exactly when slides are wanted and some title has no saved page source. */
  lemma {:induction false} SlideTasksFailIff(run: Run, data: SavedData, n: nat)
    requires n <= |data.titleToBest|
    ensures SlideTasksUpTo(run, data, n).Err? <==>
              WantsSlides(run, data.player) &&
              exists t :: 0 <= t < n && Get(data.titleToPageSource, data.titleToBest[t].0).None?
    ensures SlideTasksUpTo(run, data, n).Err? ==> SlideTasksUpTo(run, data, n).error == KeyError
    decreases n
  {
    SlideOnlyKeyError(run, data, n);
    if n > 0 {
      SlideTasksFailIff(run, data, n - 1);
      if SlideTasksUpTo(run, data, n - 1).Err? {
        SlideErrorSticks(run, data, n - 1, n);
      }
    }
  }

  /** The whole expansion: every lecture task in place, the slide tasks per title, the failure condition. */
  lemma ExpansionOfRun(run: Run, data: SavedData)
    ensures var titles := data.titleToBest;
            ExpandSpec(run, data).Err? <==>
              WantsSlides(run, data.player) && exists t :: 0 <= t < |titles| && Get(data.titleToPageSource, titles[t].0).None?
    ensures ExpandSpec(run, data).Ok? ==>
              |ExpandSpec(run, data).value.lectures| == UrlCount(data.titleToBest, |data.titleToBest|) &&
              |ExpandSpec(run, data).value.slides| == (if WantsSlides(run, data.player) then |data.titleToBest| else 0)
  {
    var n := |data.titleToBest|;
    SlideTasksFailIff(run, data, n);
    LectureCount(run, data, n);
    if SlideTasksUpTo(run, data, n).Ok? {
      SlideTasksPerTitle(run, data, n);
    }
  }

  lemma LectureStep(run: Run, data: SavedData, t: nat, j: nat, prefix: seq<LectureTask>)
    requires t < |data.titleToBest| && j < |data.titleToBest[t].1|
    ensures var (title, urls) := data.titleToBest[t];
            prefix + PerspectiveTasks(run, data.player, title, urls)[..j + 1] ==
            prefix + PerspectiveTasks(run, data.player, title, urls)[..j] + [LectureTaskOf(run, data.player, title, urls, j)]
  {
    var (title, urls) := data.titleToBest[t];
    var all := PerspectiveTasks(run, data.player, title, urls);
    assert all[..j + 1] == all[..j] + [all[j]];
  }

  /** The nested loop of `ProcessAllLectures.run`. */
  method Expand(run: Run, data: SavedData) returns (r: Result<Expansion>)
    ensures r == ExpandSpec(run, data)
  {
    var titles := data.titleToBest;
    var lectureTasks: seq<LectureTask> := [];
    var slideTasks: seq<SlideTask> := [];
    var t: nat := 0;
    while t < |titles|
      invariant t <= |titles| && lectureTasks == LectureTasksUpTo(run, data, t)
      invariant SlideTasksUpTo(run, data, t) == Ok(slideTasks)
    {
      var (title, urls) := titles[t];
      ghost var before := lectureTasks;
      var urlNum: nat := 0;
      while urlNum < |urls|
        invariant urlNum <= |urls|
        invariant lectureTasks == before + PerspectiveTasks(run, data.player, title, urls)[..urlNum]
      {
        var task := LectureTask(run.mode, title + " - perspective" + Decimal(urlNum), urls[urlNum], data.player,
                                if run.isTestRun then Some(1) else None);
        LectureStep(run, data, t, urlNum, before);
        lectureTasks := lectureTasks + [task];
        urlNum := urlNum + 1;
      }
      assert PerspectiveTasks(run, data.player, title, urls)[..urlNum] == PerspectiveTasks(run, data.player, title, urls);
      if data.player == Panopto && run.processSlides {
        var page := Get(data.titleToPageSource, title);
        if page.None? {
          SlideErrorSticks(run, data, t + 1, |titles|);
          return Err(KeyError);
        }
        slideTasks := slideTasks + [SlideTask(run.mode, title, page.value, run.isTestRun)];
      }
      t := t + 1;
    }
    return Ok(Expansion(lectureTasks, slideTasks));
  }

  /** `ProcessAllLectures.complete`: a wrapper run is never complete, so `run` always executes. */
  predicate ProcessAllComplete(present: set<string>) {
    false
  }

  // ---------------------------------------------------------------------------
  // slide tasks: targets, truncation, completion
  // ---------------------------------------------------------------------------

  /** `clean_file_name(title) + ' slides'`. */
  function SlideFolder(title: string): string {
    CleanFileName(title) + " slides"
  }

  /** `os.path.join(VIDEO_PATH, folder_name, file_name)`. */
  function SlidePath(cfg: Config, title: string, fileName: string): string {
    PathJoin(PathJoin(cfg.videoPath, SlideFolder(title)), fileName)
  }

  /** `dict(list(d.items())[:2])` in a test run, `d` otherwise. */
  function TestSubset<V>(d: Dict<V>, isTestRun: bool): Dict<V> {
    if isTestRun then Take(d, 2) else d
  }

  /**
   * `timestamp_to_LocalTarget` after the first `n` timestamps; a timestamp
   * that does not name a file raises its error.  `fileNameOf` is
   * `timestamp_to_file_name`; the lemmas below hold for any naming function.
   */
  function SlideTargetsUpTo(cfg: Config, title: string, stamps: Dict<string>, n: nat, fileNameOf: string -> Result<string>): Result<Dict<string>>
    requires n <= |stamps|
  {
    if n == 0 then Ok([])
    else
      var prev := SlideTargetsUpTo(cfg, title, stamps, n - 1, fileNameOf);
      var timestamp := stamps[n - 1].0;
      var fileName := fileNameOf(timestamp);
      if prev.Err? then prev
      else if fileName.Err? then Err(fileName.error)
      else Ok(Set(prev.value, timestamp, SlidePath(cfg, title, fileName.value)))
  }

  /**
   * `DownloadSlides.output`, given the timestamp -> thumbnail link map of the
   * task's page source: every timestamp is turned into a path (so a bad one
   * raises even in a test run), and only then is the map cut to two.
   */
  function DownloadSlidesOutputSpec(cfg: Config, task: SlideTask, stamps: Dict<string>): Result<Dict<string>> {
    var all := SlideTargetsUpTo(cfg, task.title, stamps, |stamps|, TimestampToFileName);
    if all.Err? then all else Ok(TestSubset(all.value, task.isTestRun))
  }

  /** The slides `DownloadSlides.run` downloads. */
  function DownloadedSlides(task: SlideTask, stamps: Dict<string>): Dict<string> {
    TestSubset(stamps, task.isTestRun)
  }

  /** With distinct timestamps, the `i`-th target belongs to the `i`-th timestamp and is the path of its file name. */
  lemma {:induction false} SlideTargetsInOrder(cfg: Config, title: string, stamps: Dict<string>, n: nat, fileNameOf: string -> Result<string>)
    requires n <= |stamps| && DistinctKeys(stamps) && SlideTargetsUpTo(cfg, title, stamps, n, fileNameOf).Ok?
    ensures var targets := SlideTargetsUpTo(cfg, title, stamps, n, fileNameOf).value;
            && |targets| == n
            && forall i :: 0 <= i < n ==>
                 fileNameOf(stamps[i].0).Ok? &&
                 targets[i] == (stamps[i].0, SlidePath(cfg, title, fileNameOf(stamps[i].0).value))
    decreases n
  {
    if n > 0 {
      var prev := SlideTargetsUpTo(cfg, title, stamps, n - 1, fileNameOf).value;
      SlideTargetsInOrder(cfg, title, stamps, n - 1, fileNameOf);
      var k := stamps[n - 1].0;
      assert k !in Keys(prev) by {
        forall i | 0 <= i < |prev| ensures Keys(prev)[i] != k {
          assert stamps[i].0 != stamps[n - 1].0;
        }
      }
      SetAppends(prev, k, SlidePath(cfg, title, fileNameOf(k).value));
    }
  }

  lemma {:induction false} SlideTargetsErrorSticks(cfg: Config, title: string, stamps: Dict<string>, n: nat, m: nat, fileNameOf: string -> Result<string>)
    requires n <= m <= |stamps| && SlideTargetsUpTo(cfg, title, stamps, n, fileNameOf).Err?
    ensures SlideTargetsUpTo(cfg, title, stamps, m, fileNameOf) == SlideTargetsUpTo(cfg, title, stamps, n, fileNameOf)
    decreases m
  {
    if m > n {
      SlideTargetsErrorSticks(cfg, title, stamps, n, m - 1, fileNameOf);
    }
  }

  /** The targets fail exactly when some timestamp, among all of them, does not name a file. */
  lemma {:induction false} SlideTargetsFailIff(cfg: Config, title: string, stamps: Dict<string>, n: nat, fileNameOf: string -> Result<string>)
    requires n <= |stamps|
    ensures SlideTargetsUpTo(cfg, title, stamps, n, fileNameOf).Err? <==> exists i :: 0 <= i < n && fileNameOf(stamps[i].0).Err?
    decreases n
  {
    if n > 0 {
      SlideTargetsFailIff(cfg, title, stamps, n - 1, fileNameOf);
    }
  }

  /**
   * Test mode keeps the first two targets in timestamp order, a full run all
   * of them (ten timestamps give two or ten), and the slides downloaded are
   * exactly those with targets.
   */
  lemma DownloadSlidesTruncation(cfg: Config, task: SlideTask, stamps: Dict<string>)
    requires DistinctKeys(stamps) && DownloadSlidesOutputSpec(cfg, task, stamps).Ok?
    ensures var out := DownloadSlidesOutputSpec(cfg, task, stamps).value;
            && |out| == (if task.isTestRun && |stamps| > 2 then 2 else |stamps|)
            && (forall i :: 0 <= i < |out| ==>
                  TimestampToFileName(stamps[i].0).Ok? &&
                  out[i] == (stamps[i].0, SlidePath(cfg, task.title, TimestampToFileName(stamps[i].0).value)))
            && Keys(out) == Keys(DownloadedSlides(task, stamps))
  {
    SlideTargetsInOrder(cfg, task.title, stamps, |stamps|, TimestampToFileName);
  }

  lemma SlideTargetsStep(cfg: Config, title: string, stamps: Dict<string>, i: nat, fileNameOf: string -> Result<string>, targets: Dict<string>)
    requires i < |stamps| && SlideTargetsUpTo(cfg, title, stamps, i, fileNameOf) == Ok(targets)
    ensures var fileName := fileNameOf(stamps[i].0);
            SlideTargetsUpTo(cfg, title, stamps, i + 1, fileNameOf) ==
            if fileName.Err? then Err(fileName.error) else Ok(Set(targets, stamps[i].0, SlidePath(cfg, title, fileName.value)))
  {
  }

  /** The loop of `DownloadSlides.output`, then the test-run cut. */
  method DownloadSlidesOutput(cfg: Config, task: SlideTask, stamps: Dict<string>) returns (r: Result<Dict<string>>)
    ensures r == DownloadSlidesOutputSpec(cfg, task, stamps)
  {
    var folderName := CleanFileName(task.title) + " slides";
    var targets: Dict<string> := [];
    var i: nat := 0;
    while i < |stamps|
      invariant i <= |stamps| && SlideTargetsUpTo(cfg, task.title, stamps, i, TimestampToFileName) == Ok(targets)
    {
      var timestamp := stamps[i].0;
      var fileName := TimestampToFileName(timestamp);
      SlideTargetsStep(cfg, task.title, stamps, i, TimestampToFileName, targets);
      if fileName.Err? {
        SlideTargetsErrorSticks(cfg, task.title, stamps, i + 1, |stamps|, TimestampToFileName);
        return Err(fileName.error);
      }
      var filePath := PathJoin(PathJoin(cfg.videoPath, folderName), fileName.value);
      targets := Set(targets, timestamp, filePath);
      i := i + 1;
    }
    if task.isTestRun {
      return Ok(Take(targets, 2));
    }
    return Ok(targets);
  }

  /** `.replace(VIDEO_PATH, S3_ROOT).replace('\\', '/')`. */
  function S3Path(local: string, videoPath: string, s3Root: string): string {
    Replace(Replace(local, videoPath, s3Root), "\\", "/")
  }

  /** The dict comprehension over the local targets: same timestamps, S3 paths. */
  function ToS3(local: Dict<string>, videoPath: string, s3Root: string): Dict<string> {
    seq(|local|, i requires 0 <= i < |local| => (local[i].0, S3Path(local[i].1, videoPath, s3Root)))
  }

  /**
   * `UploadSlides.output`: the S3 targets of the required download's targets,
   * cut to two again in a test run; with `S3_ROOT` None the path mapping
   * raises TypeError as soon as there is a target to map.
   */
  function UploadSlidesOutput(cfg: Config, task: SlideTask, stamps: Dict<string>): Result<Dict<string>> {
    var local := DownloadSlidesOutputSpec(cfg, task.(mode := Download), stamps);
    if local.Err? then local
    else if |local.value| == 0 then Ok([])
    else if cfg.s3Root.None? then Err(TypeError)
    else Ok(TestSubset(ToS3(local.value, cfg.videoPath, cfg.s3Root.value), task.isTestRun))
  }

  /** The upload's own test-run cut keeps everything: the download's targets were already cut to two. */
  lemma UploadCutKeepsDownloadCut(cfg: Config, task: SlideTask, stamps: Dict<string>)
    requires task.mode == Upload
    ensures var local := DownloadSlidesOutputSpec(cfg, task.(mode := Download), stamps);
            local.Ok? && |local.value| > 0 && cfg.s3Root.Some? ==>
              UploadSlidesOutput(cfg, task, stamps) == Ok(ToS3(local.value, cfg.videoPath, cfg.s3Root.value))
  {
    var local := DownloadSlidesOutputSpec(cfg, task.(mode := Download), stamps);
    if local.Ok? && |local.value| > 0 && cfg.s3Root.Some? && task.isTestRun {
      assert |local.value| <= 2;
      assert Take(ToS3(local.value, cfg.videoPath, cfg.s3Root.value), 2) == ToS3(local.value, cfg.videoPath, cfg.s3Root.value);
    }
  }

  /** `output` of a slide task of either kind. */
  function SlideOutput(cfg: Config, task: SlideTask, stamps: Dict<string>): Result<Dict<string>> {
    match task.mode
    case Download => DownloadSlidesOutputSpec(cfg, task, stamps)
    case Upload => UploadSlidesOutput(cfg, task, stamps)
  }

  /** `UploadSlides.requires`: the download with the same title, page source and test flag. */
  function SlideRequires(task: SlideTask): Option<SlideTask> {
    if task.mode == Download then None else Some(task.(mode := Download))
  }

  lemma {:induction false} ReplaceBackslashes(s: string)
    ensures '\\' !in Replace(s, "\\", "/")
    decreases |s|
  {
    if |s| > 0 {
      ReplaceBackslashes(s[1..]);
    }
  }

  /**
   * The S3 targets have the same timestamps as the download's targets (the
   * second cut changes nothing), each path is the local one with `VIDEO_PATH`
   * replaced by `S3_ROOT` and no backslash left; TypeError only for a
   * non-empty map without `S3_ROOT`.
   */
  lemma UploadSlidesMirrorDownload(cfg: Config, task: SlideTask, stamps: Dict<string>)
    requires task.mode == Upload
    ensures var req := SlideRequires(task);
            var local := DownloadSlidesOutputSpec(cfg, task.(mode := Download), stamps);
            var up := UploadSlidesOutput(cfg, task, stamps);
            && req == Some(SlideTask(Download, task.title, task.pageSource, task.isTestRun))
            && (local.Err? <==> up.Err? && up.error != TypeError)
            && (local.Ok? ==> (up == Err(TypeError) <==> cfg.s3Root.None? && |local.value| > 0))
            && (local.Ok? && up.Ok? ==>
                  Keys(up.value) == Keys(local.value) &&
                  forall i :: 0 <= i < |up.value| ==>
                    up.value[i].1 == S3Path(local.value[i].1, cfg.videoPath, cfg.s3Root.value) && '\\' !in up.value[i].1)
  {
    var local := DownloadSlidesOutputSpec(cfg, task.(mode := Download), stamps);
    if local.Err? {
      forall k | 0 <= k < |stamps| ensures TimestampToFileName(stamps[k].0).Err? ==> TimestampToFileName(stamps[k].0).error != TypeError {
        TimestampErrors(stamps[k].0);
      }
      SlideTargetsOnlyNameErrors(cfg, task.title, stamps, |stamps|, TimestampToFileName);
    } else if |local.value| > 0 && cfg.s3Root.Some? {
      var s3 := ToS3(local.value, cfg.videoPath, cfg.s3Root.value);
      assert |local.value| <= 2 || !task.isTestRun;
      forall i | 0 <= i < |s3| ensures '\\' !in s3[i].1 {
        ReplaceBackslashes(Replace(local.value[i].1, cfg.videoPath, cfg.s3Root.value));
      }
    }
  }

  /** A timestamp that does not name a file raises IndexError or ValueError, never TypeError. */
  lemma {:induction false} SlideTargetsOnlyNameErrors(cfg: Config, title: string, stamps: Dict<string>, n: nat, fileNameOf: string -> Result<string>)
    requires n <= |stamps|
    requires forall k :: 0 <= k < n ==> (fileNameOf(stamps[k].0).Err? ==> fileNameOf(stamps[k].0).error != TypeError)
    ensures SlideTargetsUpTo(cfg, title, stamps, n, fileNameOf).Err? ==> SlideTargetsUpTo(cfg, title, stamps, n, fileNameOf).error != TypeError
    decreases n
  {
    if n > 0 {
      SlideTargetsOnlyNameErrors(cfg, title, stamps, n - 1, fileNameOf);
    }
  }

  lemma TimestampErrors(timestamp: string)
    ensures TimestampToFileName(timestamp).Err? ==> TimestampToFileName(timestamp).error != TypeError
  {
    var fields := Split("0:" + timestamp, ":");
    if |fields| >= 3 {
      ParseIntErrors(fields[|fields| - 3]);
      ParseIntErrors(fields[|fields| - 2]);
      ParseIntErrors(fields[|fields| - 1]);
    }
  }

  lemma ParseIntErrors(s: string)
    ensures ParseInt(s).Err? ==> ParseInt(s).error == ValueError
  {
  }

  /** Luigi's own `complete`: a task with outputs is complete when all of them exist (one without outputs never is). */
  predicate DefaultComplete(targets: Dict<string>, present: set<string>) {
    |targets| > 0 && forall i :: 0 <= i < |targets| ==> targets[i].1 in present
  }

  /** The `complete` override of both slide tasks: no targets means complete, otherwise the default check. */
  function SlidesComplete(output: Result<Dict<string>>, present: set<string>): Result<bool> {
    if output.Err? then Err(output.error)
    else if |output.value| != 0 then Ok(DefaultComplete(output.value, present))
    else Ok(true)
  }

  /** With the override a slide task is complete exactly when every one of its targets exists, vacuously so for none. */
  lemma SlidesCompleteIffAllPresent(output: Result<Dict<string>>, present: set<string>)
    requires output.Ok?
    ensures SlidesComplete(output, present) == Ok(forall i :: 0 <= i < |output.value| ==> output.value[i].1 in present)
    ensures |output.value| == 0 ==> SlidesComplete(output, present) == Ok(true) && !DefaultComplete(output.value, present)
  {
  }
}
