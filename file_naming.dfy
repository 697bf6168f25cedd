/**
 The defaults `layout` derives from the scheduled file and the job: the friendly file
 name that goes into the default subject, and the default attachment name.
 */
module FileNaming {
  import opened Text
  import DateFormat

  /** `filePath.substring(filePath.lastIndexOf("/") + 1)`: the last path segment. */
  function LastSegment(path: string): (r: string)
    ensures |r| <= |path|
  {
    path[LastIndexOf(path, '/') + 1..]
  }

  /**
   The last segment holds no '/' and ends the path; unless it is the whole path, a '/'
   stands right before it.
   */
  lemma LastSegmentIsSuffix(path: string)
    ensures var r := LastSegment(path);
      '/' !in r && r == path[|path| - |r|..] && (|r| < |path| ==> path[|path| - |r| - 1] == '/')
  {
    LastIndexOfMeaning(path, '/');
  }

  /** A part of a text without `c` has no `c` either. */
  lemma PrefixLacks(s: string, k: nat, c: char)
    requires k <= |s| && c !in s
    ensures c !in s[..k]
  {
  }

  /**
   The friendly name exactly as `layout` computes it. Whether there is an extension is
   decided on the WHOLE path, but the extension is cut from the last segment, so a path
   whose only '.' lies in a directory name makes the second substring throw (None).
   */
  function FriendlyName(path: string): (r: Option<string>)
    ensures r.None? <==> '.' in path && '.' !in LastSegment(path)
  {
    LastIndexOfMeaning(path, '.');
    LastIndexOfMeaning(LastSegment(path), '.');
    var hasExtension := LastIndexOf(path, '.') != -1;
    var segment := LastSegment(path);
    if hasExtension then Substring(segment, 0, LastIndexOf(segment, '.'))
    else Some(segment)
  }

  /**
   The friendly name with the extension test made on the last segment: the segment
   without the text from its last '.' onwards, or the whole segment when it has no '.'.
   */
  function BaseName(path: string): string {
    var segment := LastSegment(path);
    var dot := LastIndexOf(segment, '.');
    if dot == -1 then segment else segment[..dot]
  }

  /** `BaseName` holds no '/'. */
  lemma BaseNameHasNoSlash(path: string)
    ensures '/' !in BaseName(path)
  {
    var segment := LastSegment(path);
    LastIndexOfMeaning(path, '/');
    assert '/' !in segment;
    var dot := LastIndexOf(segment, '.');
    if dot != -1 {
      PrefixLacks(segment, dot, '/');
    }
  }

  /**
   `BaseName` is the last segment when that has no '.', and otherwise the last segment
   with its extension (a '.' followed by no other '.') cut off.
   */
  lemma BaseNameDropsExtension(path: string)
    ensures '.' !in LastSegment(path) ==> BaseName(path) == LastSegment(path)
    ensures '.' in LastSegment(path) ==>
      exists ext :: LastSegment(path) == BaseName(path) + ext && |ext| > 0 && ext[0] == '.' && '.' !in ext[1..]
  {
    var segment := LastSegment(path);
    LastIndexOfMeaning(segment, '.');
    var dot := LastIndexOf(segment, '.');
    if dot != -1 {
      var base, ext := segment[..dot], segment[dot..];
      assert segment == base + ext;
      assert ext[1..] == segment[dot + 1..];
      assert segment == BaseName(path) + ext && |ext| > 0 && ext[0] == '.' && '.' !in ext[1..];
    }
  }

  /** Wherever the source's computation does not throw, it gives `BaseName`. */
  lemma FriendlyNameIsBaseName(path: string)
    requires FriendlyName(path).Some?
    ensures FriendlyName(path).value == BaseName(path)
  {
    var segment := LastSegment(path);
    LastSegmentIsSuffix(path);
    LastIndexOfMeaning(path, '.');
    LastIndexOfMeaning(segment, '.');
    if '.' in segment {
      var i :| 0 <= i < |segment| && segment[i] == '.';
      assert path[|path| - |segment| + i] == '.';
    }
  }

  /** A path with a '.' only in a directory name: the source throws, `BaseName` does not. */
  lemma DotInDirectoryOnly()
    ensures FriendlyName("/my.dir/report").None?
    ensures BaseName("/my.dir/report") == "report"
  {
    var path := "/my.dir/report";
    assert path[3] == '.';
    assert path[8..] == "report";
    LastIndexOfAt(path, '/', 7);
    assert LastSegment(path) == "report";
    LastIndexOfMeaning(path, '.');
    LastIndexOfMeaning("report", '.');
  }

  /** The usual case: "/home/user/report.xml" gives "report". */
  lemma ReportXml()
    ensures FriendlyName("/home/user/report.xml") == Some("report")
  {
    var path := "/home/user/report.xml";
    LastIndexOfAt(path, '/', 10);
    var segment := path[11..];
    assert segment == "report.xml";
    LastIndexOfAt(segment, '.', 6);
    LastIndexOfAt(path, '.', 17);
    assert segment[..6] == "report";
  }

  /** A position holding `c` with no `c` after it is what `LastIndexOf` finds. */
  lemma LastIndexOfAt(s: string, c: char, k: int)
    requires 0 <= k < |s| && s[k] == c && c !in s[k + 1..]
    ensures LastIndexOf(s, c) == k
  {
    LastIndexOfMeaning(s, c);
  }

  /**
   The attachment name: the job name followed by the date suffix, unless the suffix is
   the sentinel. An empty suffix leaves the job name as it is.
   */
  function AttachmentName(jobName: string, suffix: string): string {
    if suffix != DateFormat.Sentinel then jobName + suffix else jobName
  }

  /** The job name is always kept whole at the front; only a real suffix is added. */
  lemma AttachmentNameShape(jobName: string, suffix: string)
    ensures var r := AttachmentName(jobName, suffix);
      |r| >= |jobName| && r[..|jobName|] == jobName
      && (r == jobName <==> suffix == DateFormat.Sentinel || suffix == "")
      && (suffix != DateFormat.Sentinel ==> r[|jobName|..] == suffix)
  {
  }

  /**
   The job name `layout` starts from: the edited job's own name, or the descriptor's
   `jobName` when a new job is scheduled (which the source then requires to be a string).
   */
  function JobName(js: DateFormat.JobSchedule, editJobName: Option<string>): string
    requires editJobName.Some? || js.jobName.Some?
  {
    if editJobName.Some? then editJobName.value else js.jobName.value
  }

  /** The default attachment name of `layout`. */
  function DefaultAttachmentName(js: DateFormat.JobSchedule, editJobName: Option<string>): string
    requires editJobName.Some? || js.jobName.Some?
  {
    AttachmentName(JobName(js, editJobName), DateFormat.AppendName(js))
  }

  /**
   The default attachment name starts with the job name, and is exactly the job name when
   `appendName` gives the sentinel or nothing.
   */
  lemma DefaultAttachmentNameStartsWithJobName(js: DateFormat.JobSchedule, editJobName: Option<string>)
    requires editJobName.Some? || js.jobName.Some?
    ensures var r, name := DefaultAttachmentName(js, editJobName), JobName(js, editJobName);
      |r| >= |name| && r[..|name|] == name
      && (r == name <==> DateFormat.AppendName(js) in {DateFormat.Sentinel, ""})
  {
    AttachmentNameShape(JobName(js, editJobName), DateFormat.AppendName(js));
  }
}
