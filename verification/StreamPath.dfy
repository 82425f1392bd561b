/** The name in a stream's URL path, as the device and the robot module cut it out: `<prefix><name>/stream`. */
module StreamPath {
  import opened Text

  const STREAM := "/stream"

  predicate IsStreamPath(path: string, prefix: string) {
    StartsWith(path, prefix) && EndsWith(path, STREAM)
  }

  /** `trim_start_matches(prefix)`, `trim_end_matches("/stream")`, `trim_end_matches('/')` */
  function StreamName(path: string, prefix: string): string
    requires prefix != []
  {
    TrimEndMatches(TrimEndMatches(TrimStartMatches(path, prefix), STREAM), "/")
  }

  lemma TrimStartOnce(pattern: string, rest: string)
    requires pattern != [] && !StartsWith(rest, pattern)
    ensures StartsWith(pattern + rest, pattern) && TrimStartMatches(pattern + rest, pattern) == rest
  {
    assert (pattern + rest)[|pattern|..] == rest;
    assert TrimStartMatches(rest, pattern) == rest;
  }

  lemma TrimEndOnce(rest: string, pattern: string)
    requires pattern != [] && !EndsWith(rest, pattern)
    ensures EndsWith(rest + pattern, pattern) && TrimEndMatches(rest + pattern, pattern) == rest
  {
    assert (rest + pattern)[..|rest|] == rest;
    assert TrimEndMatches(rest, pattern) == rest;
  }

  lemma NoSlashNoSuffix(name: string, suffix: string)
    requires '/' !in name && suffix != [] && suffix[0] == '/'
    ensures !EndsWith(name, suffix)
  {
    if |name| >= |suffix| {
      assert name[|name| - |suffix|..][0] == name[|name| - |suffix|];
    }
  }

  lemma NoLaterPrefix(prefix: string, name: string, suffix: string)
    requires |prefix| > |suffix| && prefix[0] == '/' && '/' !in name
    ensures !StartsWith(name + suffix, prefix)
  {
    if name != [] {
      assert (name + suffix)[0] == name[0];
    }
  }

  lemma EndsInSuffix(s: string, suffix: string)
    ensures EndsWith(s + suffix, suffix)
  {
  }

  lemma NothingToTrim(s: string, pattern: string)
    requires pattern != [] && !EndsWith(s, pattern)
    ensures TrimEndMatches(s, pattern) == s
  {
  }

  function Slashes(k: nat): string {
    if k == 0 then "" else Slashes(k - 1) + "/"
  }

  lemma {:induction false} SlashesGo(name: string, k: nat)
    requires '/' !in name
    ensures TrimEndMatches(name + Slashes(k), "/") == name
  {
    assert "/"[0] == '/';
    if k == 0 {
      NoSlashNoSuffix(name, "/");
      assert name + Slashes(0) == name;
    } else {
      SlashesGo(name, k - 1);
      assert name + Slashes(k) == (name + Slashes(k - 1)) + "/";
      assert (name + Slashes(k))[..|name + Slashes(k - 1)|] == name + Slashes(k - 1);
      EndsInSuffix(name + Slashes(k - 1), "/");
    }
  }

  lemma {:induction false} SlashesAre(k: nat)
    ensures |Slashes(k)| == k && forall i | 0 <= i < k :: Slashes(k)[i] == '/'
  {
    if k > 0 {
      SlashesAre(k - 1);
    }
  }

  /** Slashes between the name and the last part of the path are dropped, however many. */
  lemma SlashesBeforeTheEnd(prefix: string, name: string, k: nat)
    requires prefix != [] && prefix[0] == '/' && '/' !in name && name != []
    ensures StreamName(prefix + (name + Slashes(k)) + STREAM, prefix) == name
  {
    var text := name + Slashes(k);
    assert |STREAM| == 7 && STREAM[0] == '/' && STREAM[6] == 'm';
    SlashesAre(k);
    assert !EndsWith(text, STREAM) by {
      if |text| >= 7 && k > 0 {
        assert text[|text| - 7..][6] == text[|text| - 1] == '/';
      } else if k == 0 {
        assert text == name;
        NoSlashNoSuffix(name, STREAM);
      }
    }
    hide STREAM, StartsWith, EndsWith, TrimStartMatches, TrimEndMatches;
    assert prefix + (text + STREAM) == prefix + text + STREAM;
    assert !StartsWith(text + STREAM, prefix) by {
      FirstIsNoSlash(prefix, text + STREAM);
    }
    TrimStartOnce(prefix, text + STREAM);
    TrimEndOnce(text, STREAM);
    SlashesGo(name, k);
  }

  lemma FirstIsNoSlash(prefix: string, s: string)
    requires prefix != [] && prefix[0] == '/' && s != [] && s[0] != '/'
    ensures !StartsWith(s, prefix)
  {
  }

  /** A name without slashes comes back as it was put in. */
  lemma NamesComeBack(prefix: string, name: string)
    requires |prefix| > 7 && prefix[0] == '/' && '/' !in name
    ensures IsStreamPath(prefix + name + STREAM, prefix)
    ensures StreamName(prefix + name + STREAM, prefix) == name
  {
    assert |STREAM| == 7 && STREAM[0] == '/' && "/"[0] == '/';
    hide STREAM, StartsWith, EndsWith, TrimStartMatches, TrimEndMatches;
    assert prefix + (name + STREAM) == prefix + name + STREAM;
    NoLaterPrefix(prefix, name, STREAM);
    TrimStartOnce(prefix, name + STREAM);
    NoSlashNoSuffix(name, STREAM);
    TrimEndOnce(name, STREAM);
    EndsInSuffix(prefix + name, STREAM);
    NoSlashNoSuffix(name, "/");
    NothingToTrim(name, "/");
  }
}
