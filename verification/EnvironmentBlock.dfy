/**
  The environment block handed to a Windows child: entries `key=value`, each
  closed by a NUL, and one more NUL after the last.
 */
module EnvironmentBlock {
  import opened Basics

  const NUL := '\0'

  type Env = map<string, string>

  /** The text of `s` before the first `stop`, or all of it. */
  function Before(s: string, stop: char): (r: string)
    ensures r <= s && Avoids(r, stop)
    ensures |r| < |s| ==> s[|r|] == stop
  {
    if |s| == 0 || s[0] == stop then "" else [s[0]] + Before(s[1..], stop)
  }

  lemma {:induction false} BeforeStop(head: string, stop: char, rest: string)
    requires Avoids(head, stop)
    ensures Before(head + [stop] + rest, stop) == head
  {
    var s := head + [stop] + rest;
    if |head| > 0 {
      assert s[1..] == head[1..] + [stop] + rest;
      BeforeStop(head[1..], stop, rest);
    }
  }

  lemma {:induction false} StopIsOutside(s: string, stop: char, i: nat)
    requires i <= |Before(s, stop)| && (i < |s| ==> s[i] == stop)
    ensures i == |Before(s, stop)|
  {
    if i > 0 {
      StopIsOutside(s[1..], stop, i - 1);
    }
  }

  /** A block as the system hands it over: every entry closed, and an empty entry at the end. */
  predicate Terminated(block: string)
    decreases |block|
  {
    var entry := Before(block, NUL);
    |entry| < |block| && (|entry| == 0 || Terminated(block[|entry| + 1..]))
  }

  /** An entry without `=`, or with nothing before it, defines nothing. */
  function Define(env: Env, entry: string): Env {
    var key := Before(entry, '=');
    if 0 < |key| < |entry| then env[key := entry[|key| + 1..]] else env
  }

  function Parse(block: string, env: Env): Env
    decreases |block|
  {
    var entry := Before(block, NUL);
    if |entry| == 0 || |entry| == |block| then env
    else Parse(block[|entry| + 1..], Define(env, entry))
  }

  /** What is left of a block after its first entry. */
  function Rest(block: string): string
    requires |Before(block, NUL)| < |block|
  {
    block[|Before(block, NUL)| + 1..]
  }

  lemma RestAt(block: string, p: nat, length: nat)
    requires p + length < |block| && length == |Before(block[p..], NUL)|
    ensures Rest(block[p..]) == block[p + (length + 1)..]
  {
  }

  lemma ParseStep(block: string, env: Env)
    requires Terminated(block) && block[0] != NUL
    ensures Terminated(Rest(block)) && |Rest(block)| < |block|
    ensures Parse(block, env) == Parse(Rest(block), Define(env, Before(block, NUL)))
  {
  }

  function Entry(key: string, value: string): string {
    key + "=" + value + [NUL]
  }

  ghost function FirstKey(env: Env): (k: string)
    requires env != map[]
    ensures IsFirst(k, env.Keys)
  {
    FirstExists'(env);
    var k :| IsFirst(k, env.Keys);
    k
  }

  lemma FirstExists'(env: Env)
    requires env != map[]
    ensures exists k :: IsFirst(k, env.Keys)
  {
    var some :| some in env;
    var k := FirstExists(env.Keys);
  }

  /** The entries in key order. */
  ghost function Entries(env: Env): string {
    if env == map[] then "" else
      var k := FirstKey(env);
      assert (env - {k}).Keys < env.Keys;
      Entry(k, env[k]) + Entries(env - {k})
  }

  ghost function Print(env: Env): string {
    Entries(env) + [NUL]
  }

  // ---------------------------------------------------------------- the code

  /** strchr, and strlen when `stop` is NUL: the length of the text before `stop`. */
  method Find(s: string, from: nat, stop: char) returns (length: nat)
    requires from <= |s|
    ensures from + length <= |s| && s[from..from + length] == Before(s[from..], stop)
  {
    length := 0;
    while from + length < |s| && s[from + length] != stop
      invariant length <= |Before(s[from..], stop)|
    {
      assert s[from..][length] == s[from + length];
      length := length + 1;
    }
    StopIsOutside(s[from..], stop, length);
  }

  /** Reads the inherited block entry by entry. */
  method ParseBlock(block: string) returns (env: Env)
    requires Terminated(block)
    ensures env == Parse(block, map[])
  {
    hide Parse, Before;
    env := map[];
    var p := 0;
    ghost var rest := block;
    while block[p] != NUL
      invariant 0 <= p < |block| && rest == block[p..]
      invariant Terminated(rest) && Parse(rest, env) == Parse(block, map[])
      decreases |block| - p
    {
      ParseStep(rest, env);
      var length := Find(block, p, NUL);
      env := AddEntry(env, block[p..p + length]);
      RestAt(block, p, length);
      rest := Rest(rest);
      p := p + (length + 1);
    }
    ParseEnd(rest, env);
  }

  lemma ParseEnd(block: string, env: Env)
    requires |block| > 0 && block[0] == NUL
    ensures Parse(block, env) == env
  {
  }

  method AddEntry(env: Env, entry: string) returns (r: Env)
    ensures r == Define(env, entry)
  {
    assert entry[0..] == entry;
    var eq := Find(entry, 0, '=');
    r := if 0 < eq < |entry| then env[entry[..eq] := entry[eq + 1..]] else env;
  }

  method PrintBlock(env: Env) returns (block: string)
    ensures block == Print(env)
  {
    block := "";
    var left := env;
    while left != map[]
      invariant block + Entries(left) == Entries(env)
      decreases left.Keys
    {
      FirstExists'(left);
      var key :| key in left && IsFirst(key, left.Keys);
      FirstIsUnique(key, FirstKey(left), left.Keys);
      Assoc(block, Entry(key, left[key]), Entries(left - {key}));
      block := block + (key + "=" + left[key] + [NUL]);
      left := left - {key};
    }
    block := block + [NUL];
  }

  method Overlay(base: Env, supplied: Env) returns (env: Env)
    ensures env == base + supplied
  {
    env := base;
    var left := supplied;
    while left != map[]
      invariant env + left == base + supplied
      decreases left.Keys
    {
      var key :| key in left;
      assert env[key := left[key]] + (left - {key}) == env + left;
      env := env[key := left[key]];
      left := left - {key};
    }
  }

  /** The whole section of spawn: inherit, overlay, print. `None` passes no block at all. */
  method BuildBlock(inherit: bool, inherited: string, supplied: Env) returns (block: Option<string>)
    requires Terminated(inherited)
    ensures block.None? <==> supplied == map[] && inherit
    ensures block.Some? && inherit ==> block.value == Print(Parse(inherited, map[]) + supplied)
    ensures block.Some? && !inherit ==> block.value == Print(supplied)
  {
    if supplied == map[] && inherit {
      return None;
    }
    var env: Env := map[];
    if inherit {
      env := ParseBlock(inherited);
    }
    assert map[] + supplied == supplied;
    env := Overlay(env, supplied);
    var text := PrintBlock(env);
    block := Some(text);
  }

  // ------------------------------------------------------------- the proofs

  /** What a block can carry: non-empty keys without `=`, and no NUL anywhere. */
  predicate Carriable(env: Env) {
    forall k | k in env :: |k| > 0 && Avoids(k, '=') && Avoids(k, NUL) && Avoids(env[k], NUL)
  }

  lemma {:induction false} EntryParses(key: string, value: string, rest: string, env: Env)
    requires |key| > 0 && Avoids(key, '=') && Avoids(key, NUL) && Avoids(value, NUL)
    ensures Parse(Entry(key, value) + rest, env) == Parse(rest, env[key := value])
  {
    var entry := key + ['='] + value;
    var block := Entry(key, value) + rest;
    assert Avoids(entry, NUL);
    assert block == entry + [NUL] + rest;
    BeforeStop(entry, NUL, rest);
    assert block[|entry| + 1..] == rest;
    BeforeStop(key, '=', value);
    assert entry[|key| + 1..] == value;
  }

  lemma PrintFirst(env: Env)
    requires env != map[]
    ensures var k := FirstKey(env); Print(env) == Entry(k, env[k]) + Print(env - {k})
  {
  }

  lemma {:induction false} EntriesParse(env: Env, base: Env)
    requires Carriable(env)
    ensures Parse(Print(env), base) == base + env
    decreases env.Keys
  {
    if env == map[] {
      assert Print(env) == [NUL];
      assert base + env == base;
    } else {
      var k := FirstKey(env);
      assert (env - {k}).Keys < env.Keys;
      PrintFirst(env);
      EntryParses(k, env[k], Print(env - {k}), base);
      EntriesParse(env - {k}, base[k := env[k]]);
      OverlayFirst(env, base, k);
    }
  }

  lemma OverlayFirst(env: Env, base: Env, k: string)
    requires k in env
    ensures base[k := env[k]] + (env - {k}) == base + env
  {
  }

  lemma {:induction false} ParsedIsCarriable(block: string, env: Env)
    requires Carriable(env)
    ensures Carriable(Parse(block, env))
    decreases |block|
  {
    var entry := Before(block, NUL);
    if 0 < |entry| < |block| {
      var key := Before(entry, '=');
      if 0 < |key| < |entry| {
      }
      ParsedIsCarriable(block[|entry| + 1..], Define(env, entry));
    }
  }

  /** An entry without `=`, or with nothing before it, defines nothing and stops nothing. */
  lemma BadEntryIgnored(entry: string, rest: string, env: Env)
    requires entry != "" && Avoids(entry, NUL) && (Avoids(entry, '=') || entry[0] == '=')
    ensures Parse(entry + [NUL] + rest, env) == Parse(rest, env)
  {
    var block := entry + [NUL] + rest;
    BeforeStop(entry, NUL, rest);
    assert block[|entry| + 1..] == rest;
    if Avoids(entry, '=') {
      NoStop(entry, '=');
    }
  }

  lemma {:induction false} NoStop(s: string, stop: char)
    requires Avoids(s, stop)
    ensures Before(s, stop) == s
  {
    if |s| > 0 {
      NoStop(s[1..], stop);
    }
  }

  /** The very bytes of a block: entries in key order, and a value may hold `=`. */
  lemma BlockBytes()
    ensures Print(map["B" := "x=y", "A" := "1"]) == "A=1\0B=x=y\0\0"
    ensures Print(map[]) == "\0"
  {
    var env: Env := map["B" := "x=y", "A" := "1"];
    assert "A" in env && "B" in env;
    FirstIsUnique("A", FirstKey(env), env.Keys);
    var rest := env - {"A"};
    assert rest == map["B" := "x=y"] && "B" in rest;
    FirstIsUnique("B", FirstKey(rest), rest.Keys);
    assert rest - {"B"} == map[];
    assert Entries(rest) == Entry("B", "x=y") + "";
    assert Entries(env) == Entry("A", "1") + Entries(rest);
  }

  /** Round trip: a map survives printing and parsing exactly when a block can carry it. */
  lemma {:induction false} RoundTrip(env: Env)
    ensures Parse(Print(env), map[]) == env <==> Carriable(env)
  {
    ParsedIsCarriable(Print(env), map[]);
    if Carriable(env) {
      EntriesParse(env, map[]);
      assert map[] + env == env;
    }
  }

  /** The child sees what it inherits, overlaid by what was supplied. */
  lemma ChildEnvironment(inherited: string, supplied: Env)
    requires Carriable(supplied)
    ensures Parse(Print(Parse(inherited, map[]) + supplied), map[]) == Parse(inherited, map[]) + supplied
  {
    ParsedIsCarriable(inherited, map[]);
    RoundTrip(Parse(inherited, map[]) + supplied);
  }

  lemma {:induction false} PrintedIsTerminated(env: Env)
    requires Carriable(env)
    ensures Terminated(Print(env))
    decreases env.Keys
  {
    if env != map[] {
      var k := FirstKey(env);
      var rest := env - {k};
      assert rest.Keys < env.Keys;
      PrintedIsTerminated(rest);
      var entry := k + "=" + env[k];
      PrintFirst(env);
      assert Avoids(entry, NUL) && Print(env) == entry + [NUL] + Print(rest);
      BeforeStop(entry, NUL, Print(rest));
      assert Print(env)[|entry| + 1..] == Print(rest);
    }
  }
}
