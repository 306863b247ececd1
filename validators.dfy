/**
 * The extension checks that the upload endpoints apply to a client's file
 * name: `allowed_video_file` and `allowed_audio_file`.
 */
module Validators {

  /** File extensions accepted for a gameplay video, in lower case. */
  const VideoExtensions: set<string> := {"mp4", "mov", "avi"}

  /** File extensions accepted for a background-music track, in lower case. */
  const AudioExtensions: set<string> := {"mp3", "wav"}

  /** Lower-cases an ASCII capital letter and leaves every other character alone. */
  function LowerChar(c: char): char
  {
    if 'A' <= c <= 'Z' then (c as int - 'A' as int + 'a' as int) as char else c
  }

  /** ASCII lower-casing, standing for `s.lower()` (see README). */
  function Lower(s: string): (r: string)
    ensures |r| == |s|
  {
    seq(|s|, i requires 0 <= i < |s| => LowerChar(s[i]))
  }

  /** The text after the last '.' of `s`, which is what `s.rsplit('.', 1)[1]` yields. */
  function Extension(s: string): (e: string)
    requires '.' in s
    ensures '.' !in e
  {
    if s[|s| - 1] == '.' then
      ""
    else
      assert '.' in s[..|s| - 1] by {
        var k :| 0 <= k < |s| && s[k] == '.';
        assert s[..|s| - 1][k] == '.';
      }
      Extension(s[..|s| - 1]) + [s[|s| - 1]]
  }

  /** The extension is a dot-free tail of the name with a dot right before it. */
  lemma {:induction false} ExtensionIsLastSegment(s: string)
    requires '.' in s
    ensures var e := Extension(s);
      |e| < |s| && s[|s| - |e| - 1] == '.' && s[|s| - |e|..] == e && '.' !in e
  {
    if s[|s| - 1] != '.' {
      var p := s[..|s| - 1];
      assert '.' in p by {
        var k :| 0 <= k < |s| && s[k] == '.';
        assert p[k] == '.';
      }
      ExtensionIsLastSegment(p);
      var ep := Extension(p);
      assert Extension(s) == ep + [s[|s| - 1]];
      assert s[|s| - |ep| - 2] == p[|p| - |ep| - 1];
      assert s[|s| - |ep| - 1..] == p[|p| - |ep|..] + [s[|s| - 1]];
    }
  }

  /**
   * The check both upload endpoints share: the name contains a dot, and the
   * lower-cased text after its last dot is one of `allowed`.
   */
  predicate HasExtensionIn(filename: string, allowed: set<string>)
  {
    '.' in filename && Lower(Extension(filename)) in allowed
  }

  /**
   * `allowed_video_file`: mp4, mov or avi, in any letter case. As every
   * allowed extension has three letters, the check accepts exactly the names
   * that end in a dot and one of them.
   */
  function AllowedVideoFile(filename: string): (r: bool)
    ensures r <==> EndsWithExtensionIn(filename, VideoExtensions)
  {
    ThreeLetterExtensions(filename, VideoExtensions);
    HasExtensionIn(filename, VideoExtensions)
  }

  /** `allowed_audio_file`: mp3 or wav, in any letter case; likewise a test of the last four characters. */
  function AllowedAudioFile(filename: string): (r: bool)
    ensures r <==> EndsWithExtensionIn(filename, AudioExtensions)
  {
    ThreeLetterExtensions(filename, AudioExtensions);
    HasExtensionIn(filename, AudioExtensions)
  }

  /** The name ends in a dot and three characters that, lower-cased, are one of `allowed`. */
  predicate EndsWithExtensionIn(filename: string, allowed: set<string>)
  {
    |filename| >= 4 && filename[|filename| - 4] == '.' && Lower(filename[|filename| - 3..]) in allowed
  }

  /** When every allowed extension is three dot-free letters, the check only looks at the last four characters. */
  lemma ThreeLetterExtensions(filename: string, allowed: set<string>)
    requires forall x :: x in allowed ==> |x| == 3 && '.' !in x
    ensures HasExtensionIn(filename, allowed) <==> EndsWithExtensionIn(filename, allowed)
  {
    var n := |filename|;
    if HasExtensionIn(filename, allowed) {
      ExtensionIsLastSegment(filename);
      assert |Lower(Extension(filename))| == 3;
    }
    if EndsWithExtensionIn(filename, allowed) {
      var e := filename[n - 3..];
      assert '.' !in e by {
        forall i | 0 <= i < 3 ensures e[i] != '.' {
          assert Lower(e)[i] == LowerChar(e[i]);
        }
      }
      assert filename == filename[..n - 4] + "." + e;
      ExtensionOf(filename[..n - 4], e);
    }
  }

  /** Whatever precedes the last dot, the extension is the dot-free text after it. */
  lemma {:induction false} ExtensionOf(stem: string, ext: string)
    requires '.' !in ext
    ensures '.' in stem + "." + ext
    ensures Extension(stem + "." + ext) == ext
  {
    var s := stem + "." + ext;
    assert s[|stem|] == '.';
    if ext != [] {
      var shorter := ext[..|ext| - 1];
      assert s[..|s| - 1] == stem + "." + shorter;
      ExtensionOf(stem, shorter);
    }
  }

  /**
   * The dot at index `k` of `filename` is its last one, and the rest of the
   * name after it is, lower-cased, one of `allowed`.
   */
  predicate AllowedAfter(filename: string, k: int, allowed: set<string>)
  {
    && 0 <= k < |filename| && filename[k] == '.'
    && '.' !in filename[k + 1..] && Lower(filename[k + 1..]) in allowed
  }

  /** A name passes the check exactly when it has such a last dot. */
  lemma ExtensionCharacterisation(filename: string, allowed: set<string>)
    ensures HasExtensionIn(filename, allowed) <==> exists k :: AllowedAfter(filename, k, allowed)
  {
    if HasExtensionIn(filename, allowed) {
      ExtensionIsLastSegment(filename);
      var k := |filename| - |Extension(filename)| - 1;
      assert AllowedAfter(filename, k, allowed);
    }
    if exists k :: AllowedAfter(filename, k, allowed) {
      var k :| AllowedAfter(filename, k, allowed);
      assert filename == filename[..k] + "." + filename[k + 1..];
      ExtensionOf(filename[..k], filename[k + 1..]);
    }
  }

  /** Lower-casing distributes over concatenation. */
  lemma LowerAppend(a: string, b: string)
    ensures Lower(a + b) == Lower(a) + Lower(b)
  {
  }

  /** Lower-casing the name first does not move its last dot. */
  lemma ExtensionOfLower(s: string)
    requires '.' in s
    ensures '.' in Lower(s)
    ensures Extension(Lower(s)) == Lower(Extension(s))
  {
    var e := Extension(s);
    ExtensionIsLastSegment(s);
    var stem := s[..|s| - |e| - 1];
    assert s == stem + "." + e;
    LowerAppend(stem, ".");
    LowerAppend(stem + ".", e);
    assert Lower(".") == ".";
    assert '.' !in Lower(e) by {
      forall i | 0 <= i < |e| ensures Lower(e)[i] != '.' {
        assert e[i] != '.';
      }
    }
    ExtensionOf(Lower(stem), Lower(e));
  }

  /** Two names that differ only in letter case are accepted or rejected together. */
  lemma CaseInsensitive(f: string, g: string, allowed: set<string>)
    requires Lower(f) == Lower(g)
    ensures HasExtensionIn(f, allowed) == HasExtensionIn(g, allowed)
  {
    assert |f| == |Lower(f)| == |g|;
    assert ('.' in f) == ('.' in g) by {
      forall k | 0 <= k < |f|
        ensures (f[k] == '.') == (g[k] == '.')
      {
        assert Lower(f)[k] == Lower(g)[k];
      }
    }
    if '.' in f {
      ExtensionOfLower(f);
      ExtensionOfLower(g);
    }
  }

  /** No file name is accepted both as a video and as an audio track. */
  lemma NoFileIsVideoAndAudio(filename: string)
    ensures !(AllowedVideoFile(filename) && AllowedAudioFile(filename))
  {
  }

  /** A name without any dot is rejected by both checks. */
  lemma NameWithoutDotRejected(filename: string)
    requires '.' !in filename
    ensures !AllowedVideoFile(filename) && !AllowedAudioFile(filename)
  {
  }

  /** Decides `HasExtensionIn` for a name written as a stem, a dot and a dot-free extension. */
  lemma Decide(stem: string, ext: string, allowed: set<string>)
    requires '.' !in ext
    ensures HasExtensionIn(stem + "." + ext, allowed) == (Lower(ext) in allowed)
  {
    ExtensionOf(stem, ext);
  }

  /** Video names the service meets in practice, for any stem before the last dot. */
  lemma VideoExamples(stem: string)
    ensures AllowedVideoFile(stem + ".mp4")
    ensures AllowedVideoFile(stem + ".MOV")
    ensures AllowedVideoFile(stem + ".Avi")
  {
    assert AllowedVideoFile(stem + ".mp4") by {
      Decide(stem, "mp4", VideoExtensions);
      assert stem + "." + "mp4" == stem + ".mp4";
      assert Lower("mp4") == "mp4";
    }
    assert AllowedVideoFile(stem + ".MOV") by {
      Decide(stem, "MOV", VideoExtensions);
      assert stem + "." + "MOV" == stem + ".MOV";
      assert Lower("MOV") == "mov";
    }
    assert AllowedVideoFile(stem + ".Avi") by {
      Decide(stem, "Avi", VideoExtensions);
      assert stem + "." + "Avi" == stem + ".Avi";
      assert Lower("Avi") == "avi";
    }
  }

  /** Names the video check turns away: a foreign extension, also after an inner video extension. */
  lemma RejectedVideoExamples(stem: string)
    ensures !AllowedVideoFile(stem + ".exe")
    ensures !AllowedVideoFile(stem + ".mp4.exe")
    ensures !AllowedVideoFile(stem + ".mp3")
  {
    assert !AllowedVideoFile(stem + ".exe") by {
      Decide(stem, "exe", VideoExtensions);
      assert stem + "." + "exe" == stem + ".exe";
      assert Lower("exe") == "exe";
    }
    assert !AllowedVideoFile(stem + ".mp4.exe") by {
      Decide(stem + ".mp4", "exe", VideoExtensions);
      assert (stem + ".mp4") + "." + "exe" == stem + ".mp4.exe";
      assert Lower("exe") == "exe";
    }
    assert !AllowedVideoFile(stem + ".mp3") by {
      Decide(stem, "mp3", VideoExtensions);
      assert stem + "." + "mp3" == stem + ".mp3";
      assert Lower("mp3") == "mp3";
    }
  }

  /** Audio names the service meets in practice, decided by the checks. */
  lemma AudioExamples(stem: string)
    ensures AllowedAudioFile(stem + ".mp3")
    ensures AllowedAudioFile(stem + ".WAV")
    ensures !AllowedAudioFile(stem + ".mp4")
  {
    assert AllowedAudioFile(stem + ".mp3") by {
      Decide(stem, "mp3", AudioExtensions);
      assert stem + "." + "mp3" == stem + ".mp3";
      assert Lower("mp3") == "mp3";
    }
    assert AllowedAudioFile(stem + ".WAV") by {
      Decide(stem, "WAV", AudioExtensions);
      assert stem + "." + "WAV" == stem + ".WAV";
      assert Lower("WAV") == "wav";
    }
    assert !AllowedAudioFile(stem + ".mp4") by {
      Decide(stem, "mp4", AudioExtensions);
      assert stem + "." + "mp4" == stem + ".mp4";
      assert Lower("mp4") == "mp4";
    }
  }
}
