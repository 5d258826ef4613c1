/** One synthesis cache under many jobs (backend/services/synthesis_cache.py:19-21, backend/jobs/pipeline.py:307-378):
    when two jobs can meet in it, and why what a job takes from it is in the job's own voice. */
module SharedCache {
  import opened Wrappers
  import opened ChapterRecords
  import opened ChapterTakes
  import opened Production

  // ---------- what a key tells ----------

  /** The part of a cache key before the text. */
  function Before(spec: JobSpec): string {
    spec.provider + "|" + spec.voice + "|" + spec.engine + "|"
  }

  /** Two jobs can meet in the cache exactly when the key of one starts like the key of the other. */
  lemma JobsMeetIff(a: JobSpec, b: JobSpec)
    ensures (exists x, y :: CacheKey(a, x) == CacheKey(b, y)) <==> Before(a) <= Before(b) || Before(b) <= Before(a)
  {
    hide Before;
    KeyIs(a);
    KeyIs(b);
    var p, q := Before(a), Before(b);
    if p <= q {
      assert p + q[|p|..] == q + "";
      assert CacheKey(a, q[|p|..]) == CacheKey(b, "");
    } else if q <= p {
      assert q + p[|q|..] == p + "";
      assert CacheKey(a, "") == CacheKey(b, p[|q|..]);
    } else if exists x, y :: CacheKey(a, x) == CacheKey(b, y) {
      var x, y :| CacheKey(a, x) == CacheKey(b, y);
      StartsAlike(p, x, q, y);
    }
  }

  lemma KeyIs(spec: JobSpec)
    ensures forall x :: CacheKey(spec, x) == TextDigest(Before(spec) + x)
  {
  }

  lemma StartsAlike(p: string, x: string, q: string, y: string)
    requires p + x == q + y
    ensures p <= q || q <= p
  {
    if |p| <= |q| {
      assert q == (q + y)[..|q|] == (p + x)[..|q|];
      assert p == (p + x)[..|p|] == q[..|p|];
    } else {
      assert p == (p + x)[..|p|] == (q + y)[..|p|];
      assert q == (q + y)[..|q|] == p[..|q|];
    }
  }

  predicate Free(spec: JobSpec, sep: char) {
    sep !in spec.requested && sep !in spec.provider && sep !in spec.voice && sep !in spec.engine
  }

  /** A field without the separator is read back. */
  lemma FieldReads(a: string, x: string, b: string, y: string, sep: char)
    requires sep !in a && sep !in b
    ensures a + [sep] + x == b + [sep] + y <==> a == b && x == y
  {
    var s, t := a + [sep] + x, b + [sep] + y;
    assert s[|a|] == sep && t[|b|] == sep;
    assert |a| < |b| ==> t[|a|] == b[|a|];
    assert |b| < |a| ==> s[|b|] == a[|b|];
    if s == t {
      assert |a| == |b|;
      assert a == s[..|a|] && b == t[..|b|];
      assert x == s[|a|+1..] && y == t[|b|+1..];
    }
  }

  lemma FieldsRead(a1: string, a2: string, a3: string, x: string, b1: string, b2: string, b3: string, y: string,
                   sep: char)
    requires sep !in a1 && sep !in a2 && sep !in a3 && sep !in b1 && sep !in b2 && sep !in b3
    ensures a1 + [sep] + a2 + [sep] + a3 + [sep] + x == b1 + [sep] + b2 + [sep] + b3 + [sep] + y
            <==> a1 == b1 && a2 == b2 && a3 == b3 && x == y
  {
    var s2, t2 := a2 + [sep] + (a3 + [sep] + x), b2 + [sep] + (b3 + [sep] + y);
    assert a1 + [sep] + a2 + [sep] + a3 + [sep] + x == a1 + [sep] + s2;
    assert b1 + [sep] + b2 + [sep] + b3 + [sep] + y == b1 + [sep] + t2;
    FieldReads(a1, s2, b1, t2, sep);
    FieldReads(a2, a3 + [sep] + x, b2, b3 + [sep] + y, sep);
    FieldReads(a3, x, b3, y, sep);
  }

  /** So when no name has a bar in it, a cache key tells the provider, the voice, the engine and the text. */
  lemma CacheKeysTellVoices(a: JobSpec, b: JobSpec, x: string, y: string)
    requires Free(a, '|') && Free(b, '|')
    ensures CacheKey(a, x) == CacheKey(b, y) <==> VoiceOf(a) == VoiceOf(b) && x == y
  {
    assert "|" == ['|'];
    FieldsRead(a.provider, a.voice, a.engine, x, b.provider, b.voice, b.engine, y, '|');
  }

  /** And when none has a colon in it, so do the ids of chapters and chunks. */
  lemma IdsTellVoices(a: JobSpec, b: JobSpec, x: string, y: string)
    requires Free(a, ':') && Free(b, ':')
    ensures ChunkId(a, x) == ChunkId(b, y) <==> VoiceOf(a) == VoiceOf(b) && x == y
    ensures ChapterId(a, x) == ChapterId(b, y)
            <==> a.requested == b.requested && a.voice == b.voice && a.engine == b.engine && x == y
  {
    assert ":" == [':'];
    FieldsRead(a.provider, a.voice, a.engine, x, b.provider, b.voice, b.engine, y, ':');
    FieldsRead(a.requested, a.voice, a.engine, x, b.requested, b.voice, b.engine, y, ':');
  }

  /** With a bar in a name two voices can share an entry. */
  lemma BarsConfuseVoices(spec: JobSpec)
    ensures
      var a := spec.(provider := "p", voice := "v|e", engine := "x");
      var b := spec.(provider := "p", voice := "v", engine := "e");
      VoiceOf(a) != VoiceOf(b) && CacheKey(a, "hello") == CacheKey(b, "x|hello")
  {
    assert "p" + "|" + "v|e" + "|" + "x" + "|" + "hello" == "p|v|e|x|hello";
    assert "p" + "|" + "v" + "|" + "e" + "|" + "x|hello" == "p|v|e|x|hello";
  }

  /** A chapter rendered for one job description is current for another exactly when provider, voice, engine
      and text are the same: after a change of voice it is rendered anew. */
  lemma VoiceChangeIsNotCurrent(a: JobSpec, b: JobSpec, row: Row, x: string, y: string)
    requires Free(a, ':') && Free(b, ':')
    ensures Current(b, Published(a, row, x), y)
            <==> a.requested == b.requested && a.voice == b.voice && a.engine == b.engine && x == y
  {
    hide ChapterId, MaxNumber, Superseded;
    IdsTellVoices(a, b, x, y);
  }

  // ---------- many jobs ----------

  /** Some job's provider spoke this audio for this text in this voice. */
  ghost predicate SpokenIn(envs: seq<Env>, voice: Voice, chunk: string, audio: Bytes) {
    exists i, t :: 0 <= i < |envs| && envs[i].speak(t, voice, chunk) == Some(audio)
  }

  lemma HeardIsSpoken(spec: JobSpec, env: Env, tick: nat, chunk: string, audio: Bytes)
    requires Synthesized(spec, env, tick, chunk).0 == Heard(audio)
    ensures exists t :: env.speak(t, VoiceOf(spec), chunk) == Some(audio)
  {
    hide ValidMedia;
  }

  /** Every entry was heard by one of these jobs. */
  ghost predicate AllHeard(specs: seq<JobSpec>, envs: seq<Env>, cache: map<TextDigest, Bytes>)
    requires |specs| == |envs|
  {
    forall k :: k in cache ==> exists i :: 0 <= i < |specs| && HeardAs(specs[i], envs[i], k, cache[k])
  }

  lemma NothingHeard()
    ensures AllHeard([], [], map[])
  {
  }

  lemma OneMoreJob(specs: seq<JobSpec>, envs: seq<Env>, was: map<TextDigest, Bytes>, spec: JobSpec, env: Env,
                   now: map<TextDigest, Bytes>)
    requires |specs| == |envs| && AllHeard(specs, envs, was) && CacheFrom(spec, env, was, now)
    ensures AllHeard(specs + [spec], envs + [env], now)
  {
    hide HeardAs;
    var specs', envs' := specs + [spec], envs + [env];
    forall k | k in now ensures exists i :: 0 <= i < |specs'| && HeardAs(specs'[i], envs'[i], k, now[k]) {
      if CacheAt(was, k) == Some(now[k]) {
        var i :| 0 <= i < |specs| && HeardAs(specs[i], envs[i], k, was[k]);
        assert HeardAs(specs'[i], envs'[i], k, now[k]);
      } else {
        assert HeardAs(specs'[|specs|], envs'[|specs|], k, now[k]);
      }
    }
  }

  /** The audio of a hit was spoken for this text in the voice of the job that hits. */
  lemma HitIsInVoice(specs: seq<JobSpec>, envs: seq<Env>, cache: map<TextDigest, Bytes>, spec: JobSpec, chunk: string)
    requires |specs| == |envs| && AllHeard(specs, envs, cache) && Hit(spec, cache, chunk)
    requires Free(spec, '|') && forall i :: 0 <= i < |specs| ==> Free(specs[i], '|')
    ensures SpokenIn(envs, VoiceOf(spec), chunk, cache[CacheKey(spec, chunk)])
  {
    hide CacheKey, Synthesized, ValidMedia, Free;
    var key := CacheKey(spec, chunk);
    var i :| 0 <= i < |specs| && HeardAs(specs[i], envs[i], key, cache[key]);
    var c, t :| key == CacheKey(specs[i], c) && Synthesized(specs[i], envs[i], t, c).0 == Heard(cache[key]);
    CacheKeysTellVoices(specs[i], spec, c, chunk);
    HeardIsSpoken(specs[i], envs[i], t, c, cache[key]);
    var u :| envs[i].speak(u, VoiceOf(specs[i]), c) == Some(cache[key]);
    assert envs[i].speak(u, VoiceOf(spec), chunk) == Some(cache[key]);
  }

  /** Everything a run accepted was spoken for its text in the job's own voice. */
  ghost predicate InVoice(envs: seq<Env>, spec: JobSpec, env: Env, takes: seq<Take>) {
    |takes| <= |env.chapters|
    && forall k, m :: 0 <= k < |takes| && 0 <= m < |PiecesOf(takes[k])| ==>
         && |PiecesOf(takes[k])| <= |env.plan(env.chapters[k].clean)|
         && SpokenIn(envs, VoiceOf(spec), env.plan(env.chapters[k].clean)[m], PiecesOf(takes[k])[m])
  }

  lemma SourcedIsInVoice(specs: seq<JobSpec>, envs: seq<Env>, was: map<TextDigest, Bytes>, spec: JobSpec, env: Env,
                         takes: seq<Take>)
    requires |specs| == |envs| && AllHeard(specs, envs, was) && AllSourced(spec, env, takes, was)
    requires Free(spec, '|') && forall i :: 0 <= i < |specs| ==> Free(specs[i], '|')
    ensures InVoice(envs + [env], spec, env, takes)
  {
    hide CacheKey, Synthesized, Hit, Free, AllHeard, SpokenIn, PiecesOf;
    forall k, m | 0 <= k < |takes| && 0 <= m < |PiecesOf(takes[k])|
      ensures |PiecesOf(takes[k])| <= |env.plan(env.chapters[k].clean)|
      ensures SpokenIn(envs + [env], VoiceOf(spec), env.plan(env.chapters[k].clean)[m], PiecesOf(takes[k])[m])
    {
      var chunks, piece := env.plan(env.chapters[k].clean), PiecesOf(takes[k])[m];
      assert Sourced(spec, env, was, env.chapters[k].clean, takes[k]);
      assert Source(spec, env, was, chunks[m], piece);
      SourceCases(spec, env, was, chunks[m], piece);
      if Hit(spec, was, chunks[m]) && CacheAt(was, CacheKey(spec, chunks[m])) == Some(piece) {
        HitIsInVoice(specs, envs, was, spec, chunks[m]);
        MoreEnvs(envs, env, VoiceOf(spec), chunks[m], piece);
      } else {
        var t :| Synthesized(spec, env, t, chunks[m]).0 == Heard(piece);
        HeardIsSpoken(spec, env, t, chunks[m], piece);
        LastEnv(envs, env, VoiceOf(spec), chunks[m], piece);
      }
    }
  }

  lemma SourceCases(spec: JobSpec, env: Env, was: map<TextDigest, Bytes>, chunk: string, audio: Bytes)
    requires Source(spec, env, was, chunk, audio)
    ensures || (Hit(spec, was, chunk) && CacheAt(was, CacheKey(spec, chunk)) == Some(audio))
            || exists t :: Synthesized(spec, env, t, chunk).0 == Heard(audio)
  {
    hide CacheKey, Synthesized, ValidMedia;
  }

  lemma MoreEnvs(envs: seq<Env>, env: Env, voice: Voice, chunk: string, audio: Bytes)
    requires SpokenIn(envs, voice, chunk, audio)
    ensures SpokenIn(envs + [env], voice, chunk, audio)
  {
    var i, t :| 0 <= i < |envs| && envs[i].speak(t, voice, chunk) == Some(audio);
    assert (envs + [env])[i].speak(t, voice, chunk) == Some(audio);
  }

  lemma LastEnv(envs: seq<Env>, env: Env, voice: Voice, chunk: string, audio: Bytes)
    requires exists t :: env.speak(t, voice, chunk) == Some(audio)
    ensures SpokenIn(envs + [env], voice, chunk, audio)
  {
    var t :| env.speak(t, voice, chunk) == Some(audio);
    assert (envs + [env])[|envs|].speak(t, voice, chunk) == Some(audio);
  }

  ghost function SpecsOf(studios: seq<Studio>): seq<JobSpec> {
    seq(|studios|, i requires 0 <= i < |studios| => studios[i].spec)
  }

  ghost predicate Ready(studio: Studio)
    reads studio
  {
    studio.Valid() && studio.work == studio.saved && Free(studio.spec, '|')
  }

  lemma ReadyIsFree(studio: Studio)
    requires Ready(studio)
    ensures Free(studio.spec, '|')
  {
  }

  /** One job more on the same cache. */
  method RunNext(studio: Studio, env: Env, cache: map<TextDigest, Bytes>, ghost specs: seq<JobSpec>,
                 ghost envs: seq<Env>)
    returns (now: map<TextDigest, Bytes>, ghost takes: seq<Take>)
    requires Ready(studio) && |specs| == |envs| && AllHeard(specs, envs, cache)
    requires forall i :: 0 <= i < |specs| ==> Free(specs[i], '|')
    modifies studio
    ensures Ready(studio)
    ensures AllHeard(specs + [studio.spec], envs + [env], now) && InVoice(envs + [env], studio.spec, env, takes)
  {
    hide Free, AllHeard, InVoice, CacheFrom, AllSourced, AllCached, AllBilled, RowsOk, EndOk, Recorded;
    studio.cache := cache;
    var o, t := studio.RunAttempt(env);
    now, takes := studio.cache, t;
    OneMoreJob(specs, envs, cache, studio.spec, env, now);
    SourcedIsInVoice(specs, envs, cache, studio.spec, env, t);
  }

  /** Jobs that run one after the other on one machine, on one cache, empty at first: whatever they say and
      whatever happens, each accepts only audio that was spoken for its own text in its own voice. */
  method RunInTurn(studios: seq<Studio>, envs: seq<Env>)
    returns (cache: map<TextDigest, Bytes>, ghost takes: seq<seq<Take>>)
    requires |studios| == |envs| && forall i, k :: 0 <= i < k < |studios| ==> studios[i] != studios[k]
    requires forall s :: s in studios ==> Ready(s)
    modifies set s | s in studios
    ensures forall s :: s in studios ==> Ready(s)
    ensures AllHeard(SpecsOf(studios), envs, cache)
    ensures |takes| == |studios|
    ensures forall i :: 0 <= i < |studios| ==> InVoice(envs[..i+1], studios[i].spec, envs[i], takes[i])
  {
    hide AllHeard, InVoice, Free, Ready;
    cache, takes := map[], [];
    ghost var specs: seq<JobSpec> := [];
    NothingHeard();
    assert envs[..0] == [];
    for n := 0 to |studios|
      invariant forall s :: s in studios ==> Ready(s)
      invariant |specs| == n && forall i :: 0 <= i < n ==> specs[i] == studios[i].spec && Free(specs[i], '|')
      invariant AllHeard(specs, envs[..n], cache)
      invariant |takes| == n && forall i :: 0 <= i < n ==> InVoice(envs[..i+1], studios[i].spec, envs[i], takes[i])
    {
      ghost var t;
      ReadyIsFree(studios[n]);
      assert envs[..n+1] == envs[..n] + [envs[n]];
      cache, t := RunNext(studios[n], envs[n], cache, specs, envs[..n]);
      specs, takes := specs + [studios[n].spec], takes + [t];
    }
    assert specs == SpecsOf(studios) && envs[..|studios|] == envs;
  }
}
