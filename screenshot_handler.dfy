/**
 * The screenshot handler: the file name a capture is saved under, derived
 * from a name and an ISO timestamp, and the naive comparison of two
 * encoded screenshots.
 */
module Screenshots {
  import opened Wrappers
  import opened Browser

  const DefaultScreenshotDir := "./screenshots"

  /** The character a timestamp character becomes in a file name. */
  function SafeChar(c: char): char
  {
    if c == ':' || c == '.' then '-' else c
  }

  /** The timestamp with every `:` and `.` replaced by `-`, everything else left in place. */
  function SanitizeTimestamp(ts: string): (r: string)
    ensures |r| == |ts|
    ensures forall i :: 0 <= i < |ts| ==> r[i] == SafeChar(ts[i])
    ensures ':' !in r && '.' !in r
  {
    if ts == "" then "" else [SafeChar(ts[0])] + SanitizeTimestamp(ts[1..])
  }

  /** Sanitising twice is sanitising once. */
  lemma SanitizeIdempotent(ts: string)
    ensures SanitizeTimestamp(SanitizeTimestamp(ts)) == SanitizeTimestamp(ts)
  {
    assert forall i :: 0 <= i < |ts| ==> SanitizeTimestamp(SanitizeTimestamp(ts))[i] == SanitizeTimestamp(ts)[i];
  }

  /** Sanitising works piece by piece. */
  lemma SanitizeAppend(a: string, b: string)
    ensures SanitizeTimestamp(a + b) == SanitizeTimestamp(a) + SanitizeTimestamp(b)
  {
    forall i | 0 <= i < |a + b|
      ensures SanitizeTimestamp(a + b)[i] == (SanitizeTimestamp(a) + SanitizeTimestamp(b))[i]
    {
      if i < |a| {
        assert (a + b)[i] == a[i];
      } else {
        assert (a + b)[i] == b[i - |a|];
      }
    }
  }

  /** Exactly the timestamps without `:` and `.` are left unchanged. */
  lemma SanitizeUnchanged(ts: string)
    ensures SanitizeTimestamp(ts) == ts <==> ':' !in ts && '.' !in ts
  {
    if ':' !in ts && '.' !in ts {
      assert forall i :: 0 <= i < |ts| ==> SanitizeTimestamp(ts)[i] == ts[i];
    }
  }

  /** The file name: the name, `_`, the sanitised timestamp, `.png`. */
  function FileName(name: string, timestamp: string): (r: string)
    ensures |r| == |name| + 1 + |timestamp| + 4
    ensures r[..|name|] == name && r[|name|] == '_' && r[|r| - 4..] == ".png"
    ensures r[|name| + 1..|r| - 4] == SanitizeTimestamp(timestamp)
  {
    var r := name + "_" + SanitizeTimestamp(timestamp) + ".png";
    assert r[|name| + 1..|r| - 4] == SanitizeTimestamp(timestamp);
    r
  }

  /** Two captures under the same name get the same file name exactly when their timestamps sanitise alike. */
  lemma FileNameDistinguishes(name: string, t1: string, t2: string)
    ensures FileName(name, t1) == FileName(name, t2) <==> SanitizeTimestamp(t1) == SanitizeTimestamp(t2)
  {
    if FileName(name, t1) == FileName(name, t2) {
      var f := FileName(name, t1);
      assert SanitizeTimestamp(t1) == f[|name| + 1..|f| - 4];
    }
  }

  class ScreenshotHandler {
    const screenshotDir: string

    /** The constructor; without a directory, captures go to `./screenshots`. */
    constructor(screenshotDir: Option<string>)
      ensures this.screenshotDir == if screenshotDir.Some? then screenshotDir.value else DefaultScreenshotDir
    {
      this.screenshotDir := if screenshotDir.Some? then screenshotDir.value else DefaultScreenshotDir;
    }

    /**
     * `capture`: takes the full-page screenshot and names the file after
     * `name` and the current time, given as `timestamp`.
     */
    method Capture(p: Page, name: string, timestamp: string) returns (r: Act<string>)
      ensures r.page == Perform(p, Screenshot).page
      ensures r.out.Thrown? <==> FaultOf(p, Screenshot).Some?
      ensures r.out.Ok? ==> r.out.value == FileName(name, timestamp)
    {
      var shot := TakeScreenshot(p);
      if shot.out.Thrown? {
        r := Act(Thrown(shot.out.message), shot.page);
        return;
      }
      r := Act(Ok(FileName(name, timestamp)), shot.page);
    }
  }

  /** `compareScreenshots`: the two encodings differ. */
  function CompareScreenshots(before: string, after: string): (changed: bool)
    ensures changed <==> before != after
  {
    before != after
  }

  /** The comparison is symmetric and never reports a change against itself. */
  lemma CompareSymmetric(a: string, b: string)
    ensures CompareScreenshots(a, b) == CompareScreenshots(b, a)
    ensures !CompareScreenshots(a, a)
  {
  }
}
