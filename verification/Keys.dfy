/** internal/cache/key.go: the length-prefixed buffer that an action's cache key is the
    digest of, and why nothing the key covers can be confused with anything else. */
module Keys {
  import opened Sorting
  import opened Graphs

  // ---- one record ----

  datatype Tag = Version | Platform | Arg | Env | Tool | Input | Output

  function TagText(t: Tag): string {
    match t
    case Version => "version"
    case Platform => "platform"
    case Arg => "arg"
    case Env => "env"
    case Tool => "tool"
    case Input => "input"
    case Output => "output"
  }

  lemma TagTextInjective(t: Tag, u: Tag)
    ensures ' ' !in TagText(t)
    ensures TagText(t) == TagText(u) ==> t == u
  {
    assert TagText(Arg)[0] != TagText(Env)[0];
  }

  datatype Record = Record(tag: Tag, value: string)

  function Digit(d: nat): char
    requires d < 10
  {
    "0123456789"[d]
  }

  /** The %d verb. */
  function Decimal(n: nat): string {
    if n < 10 then [Digit(n)] else Decimal(n / 10) + [Digit(n % 10)]
  }

  /** The "%s %d\n%s\n" of write. */
  function Line(r: Record): string {
    TagText(r.tag) + " " + Decimal(|r.value|) + "\n" + r.value + "\n"
  }

  function Encode(rs: seq<Record>): string {
    if rs == [] then "" else Line(rs[0]) + Encode(rs[1..])
  }

  lemma EncodeCons(r: Record, rs: seq<Record>)
    ensures Encode([r] + rs) == Line(r) + Encode(rs)
  {
    assert ([r] + rs)[1..] == rs;
  }

  lemma {:induction false} EncodeAppend(a: seq<Record>, b: seq<Record>)
    ensures Encode(a + b) == Encode(a) + Encode(b)
    decreases |a|
  {
    if a == [] {
      assert a + b == b;
    } else {
      var r, rest := a[0], a[1..];
      assert a == [r] + rest && a + b == [r] + (rest + b);
      EncodeAppend(rest, b);
      EncodeCons(r, rest);
      EncodeCons(r, rest + b);
      Associative(Line(r), Encode(rest), Encode(b));
    }
  }

  lemma Associative(a: string, b: string, c: string)
    ensures a + (b + c) == a + b + c
  {
  }

  lemma {:induction false} DecimalDigits(n: nat)
    ensures |Decimal(n)| >= 1 && '\n' !in Decimal(n)
    ensures n >= 10 ==> |Decimal(n)| >= 2
    decreases n
  {
    if n >= 10 { DecimalDigits(n / 10); }
  }

  lemma {:induction false} DecimalInjective(a: nat, b: nat)
    requires Decimal(a) == Decimal(b)
    ensures a == b
    decreases a
  {
    DecimalDigits(a);
    DecimalDigits(b);
    if a >= 10 && b >= 10 {
      var x, y := Decimal(a / 10), Decimal(b / 10);
      assert Decimal(a)[..|Decimal(a)| - 1] == x && Decimal(b)[..|Decimal(b)| - 1] == y;
      DecimalInjective(a / 10, b / 10);
      assert Decimal(a)[|Decimal(a)| - 1] == Digit(a % 10) && Decimal(b)[|Decimal(b)| - 1] == Digit(b % 10);
    }
  }

  /** The part before the first occurrence of a separator is determined. */
  lemma SplitFirst(a: string, x: string, b: string, y: string, c: char)
    requires c !in a && c !in b && a + [c] + x == b + [c] + y
    ensures a == b && x == y
  {
    var s, t := a + [c] + x, b + [c] + y;
    assert s[|a|] == c && t[|b|] == c;
    assert forall i :: 0 <= i < |a| ==> s[i] == a[i];
    assert forall i :: 0 <= i < |b| ==> t[i] == b[i];
    assert |a| == |b|;
    assert s[..|a|] == a && t[..|b|] == b && s[|a| + 1..] == x && t[|b| + 1..] == y;
  }

  /** So is the part after the last one. */
  lemma SplitLast(a: string, x: string, b: string, y: string, c: char)
    requires c !in x && c !in y && a + [c] + x == b + [c] + y
    ensures a == b && x == y
  {
    var s, t := a + [c] + x, b + [c] + y;
    assert s[|a|] == c && t[|b|] == c;
    assert forall i :: |a| < i < |s| ==> s[i] == x[i - |a| - 1];
    assert forall i :: |b| < i < |t| ==> t[i] == y[i - |b| - 1];
    assert |a| == |b|;
    assert s[..|a|] == a && t[..|b|] == b && s[|a| + 1..] == x && t[|b| + 1..] == y;
  }

  lemma LineShape(r: Record, x: string)
    ensures Line(r) + x == TagText(r.tag) + " " + (Decimal(|r.value|) + "\n" + (r.value + ("\n" + x)))
  {
  }

  /** A record can be read back from the front of a buffer. */
  lemma LineInjective(r: Record, x: string, t: Record, y: string)
    requires Line(r) + x == Line(t) + y
    ensures r == t && x == y
  {
    var end1, end2 := r.value + ("\n" + x), t.value + ("\n" + y);
    var rest1, rest2 := Decimal(|r.value|) + "\n" + end1, Decimal(|t.value|) + "\n" + end2;
    LineShape(r, x);
    LineShape(t, y);
    TagTextInjective(r.tag, t.tag);
    TagTextInjective(t.tag, r.tag);
    SplitFirst(TagText(r.tag), rest1, TagText(t.tag), rest2, ' ');
    DecimalDigits(|r.value|);
    DecimalDigits(|t.value|);
    SplitFirst(Decimal(|r.value|), end1, Decimal(|t.value|), end2, '\n');
    DecimalInjective(|r.value|, |t.value|);
    SameLengthPrefix(r.value, "\n" + x, t.value, "\n" + y);
    assert ("\n" + x)[1..] == x && ("\n" + y)[1..] == y;
  }

  lemma SameLengthPrefix(a: string, x: string, b: string, y: string)
    requires |a| == |b| && a + x == b + y
    ensures a == b && x == y
  {
    assert (a + x)[..|a|] == a && (b + y)[..|b|] == b;
    assert (a + x)[|a|..] == x && (b + y)[|b|..] == y;
  }

  /** No two lists of records share a buffer: length prefixes leave no ambiguity. */
  lemma {:induction false} EncodeInjective(a: seq<Record>, b: seq<Record>)
    requires Encode(a) == Encode(b)
    ensures a == b
    decreases |a|
  {
    EncodeEmpty(a);
    EncodeEmpty(b);
    if a != [] && b != [] {
      LineInjective(a[0], Encode(a[1..]), b[0], Encode(b[1..]));
      EncodeInjective(a[1..], b[1..]);
      assert a == [a[0]] + a[1..] && b == [b[0]] + b[1..];
    }
  }

  lemma EncodeEmpty(rs: seq<Record>)
    ensures rs == [] <==> Encode(rs) == ""
  {
  }

  // ---- the records of a key ----

  const KEY_VERSION := "buildforge-key-v1"

  /** What one action's key is computed from: the platform, the command, the declared
      environment as "name=value" in the order of the names, the tool's digest, the
      inputs in sorted order with the digest of each, and the outputs in sorted order. */
  datatype KeyParts = KeyParts(
    platform: string,
    command: seq<string>,
    env: seq<string>,
    tool: string,
    inputs: seq<string>,
    digests: seq<string>,
    outputs: seq<string>)

  function Tagged(tag: Tag, values: seq<string>): seq<Record> {
    if values == [] then [] else [Record(tag, values[0])] + Tagged(tag, values[1..])
  }

  function InputValues(inputs: seq<string>, digests: seq<string>): (r: seq<string>)
    requires |inputs| == |digests|
    ensures |r| == |inputs|
    ensures forall i :: 0 <= i < |r| ==> r[i] == inputs[i] + " " + digests[i]
  {
    if inputs == [] then [] else [inputs[0] + " " + digests[0]] + InputValues(inputs[1..], digests[1..])
  }

  function Records(p: KeyParts): seq<Record>
    requires |p.inputs| == |p.digests|
  {
    [Record(Version, KEY_VERSION), Record(Platform, p.platform)]
    + Tagged(Arg, p.command) + Tagged(Env, p.env) + [Record(Tool, p.tool)]
    + Tagged(Input, InputValues(p.inputs, p.digests)) + Tagged(Output, p.outputs)
  }

  /** The values recorded under one tag, in order. */
  ghost function Select(rs: seq<Record>, tag: Tag): seq<string> {
    if rs == [] then [] else (if rs[0].tag == tag then [rs[0].value] else []) + Select(rs[1..], tag)
  }

  lemma {:induction false} SelectAppend(a: seq<Record>, b: seq<Record>, tag: Tag)
    ensures Select(a + b, tag) == Select(a, tag) + Select(b, tag)
    decreases |a|
  {
    if a == [] {
      assert a + b == b;
    } else {
      SelectAppend(a[1..], b, tag);
      assert (a + b)[1..] == a[1..] + b;
      Prefixed(if a[0].tag == tag then [a[0].value] else [], Select(a[1..], tag), Select(b, tag));
    }
  }

  lemma Prefixed(x: seq<string>, y: seq<string>, z: seq<string>)
    ensures x + (y + z) == x + y + z
  {
  }

  lemma {:induction false} SelectTagged(t: Tag, values: seq<string>, tag: Tag)
    ensures Select(Tagged(t, values), tag) == if t == tag then values else []
    decreases |values|
  {
    if values != [] {
      SelectTagged(t, values[1..], tag);
      assert Tagged(t, values)[1..] == Tagged(t, values[1..]);
      assert values == [values[0]] + values[1..];
    }
  }

  lemma SelectRecords(p: KeyParts, tag: Tag)
    requires |p.inputs| == |p.digests|
    ensures Select(Records(p), tag) ==
      Select([Record(Version, KEY_VERSION), Record(Platform, p.platform)], tag)
      + (if tag == Arg then p.command else [])
      + (if tag == Env then p.env else [])
      + Select([Record(Tool, p.tool)], tag)
      + (if tag == Input then InputValues(p.inputs, p.digests) else [])
      + (if tag == Output then p.outputs else [])
  {
    var h := [Record(Version, KEY_VERSION), Record(Platform, p.platform)];
    var a, e, t := Tagged(Arg, p.command), Tagged(Env, p.env), [Record(Tool, p.tool)];
    var i, o := Tagged(Input, InputValues(p.inputs, p.digests)), Tagged(Output, p.outputs);
    SelectAppend(h, a, tag);
    SelectAppend(h + a, e, tag);
    SelectAppend(h + a + e, t, tag);
    SelectAppend(h + a + e + t, i, tag);
    SelectAppend(h + a + e + t + i, o, tag);
    SelectTagged(Arg, p.command, tag);
    SelectTagged(Env, p.env, tag);
    SelectTagged(Input, InputValues(p.inputs, p.digests), tag);
    SelectTagged(Output, p.outputs, tag);
  }

  ghost predicate SpacelessDigests(p: KeyParts) {
    |p.inputs| == |p.digests| && forall i :: 0 <= i < |p.digests| ==> ' ' !in p.digests[i]
  }

  lemma InputValuesInjective(p: KeyParts, q: KeyParts)
    requires SpacelessDigests(p) && SpacelessDigests(q)
    requires InputValues(p.inputs, p.digests) == InputValues(q.inputs, q.digests)
    ensures p.inputs == q.inputs && p.digests == q.digests
  {
    var v, w := InputValues(p.inputs, p.digests), InputValues(q.inputs, q.digests);
    forall i | 0 <= i < |v| ensures p.inputs[i] == q.inputs[i] && p.digests[i] == q.digests[i] {
      assert v[i] == w[i];
      SplitLast(p.inputs[i], p.digests[i], q.inputs[i], q.digests[i], ' ');
    }
  }

  lemma SelectPlatform(p: KeyParts)
    requires |p.inputs| == |p.digests|
    ensures Select(Records(p), Platform) == [p.platform]
  {
    SelectRecords(p, Platform);
    SelectFixed(p, Platform);
  }

  lemma SelectArg(p: KeyParts)
    requires |p.inputs| == |p.digests|
    ensures Select(Records(p), Arg) == p.command
  {
    SelectRecords(p, Arg);
    SelectFixed(p, Arg);
  }

  lemma SelectEnv(p: KeyParts)
    requires |p.inputs| == |p.digests|
    ensures Select(Records(p), Env) == p.env
  {
    SelectRecords(p, Env);
    SelectFixed(p, Env);
  }

  lemma SelectTool(p: KeyParts)
    requires |p.inputs| == |p.digests|
    ensures Select(Records(p), Tool) == [p.tool]
  {
    SelectRecords(p, Tool);
    SelectFixed(p, Tool);
  }

  lemma SelectInput(p: KeyParts)
    requires |p.inputs| == |p.digests|
    ensures Select(Records(p), Input) == InputValues(p.inputs, p.digests)
  {
    SelectRecords(p, Input);
    SelectFixed(p, Input);
  }

  lemma SelectOutput(p: KeyParts)
    requires |p.inputs| == |p.digests|
    ensures Select(Records(p), Output) == p.outputs
  {
    SelectRecords(p, Output);
    SelectFixed(p, Output);
  }

  lemma SelectFixed(p: KeyParts, tag: Tag)
    requires tag != Version
    ensures Select([Record(Tool, p.tool)], tag) == (if tag == Tool then [p.tool] else [])
    ensures Select([Record(Version, KEY_VERSION), Record(Platform, p.platform)], tag)
      == (if tag == Platform then [p.platform] else [])
  {
    var t, h := [Record(Tool, p.tool)], [Record(Version, KEY_VERSION), Record(Platform, p.platform)];
    assert t[1..] == [] && h[1..] == [Record(Platform, p.platform)] && h[1..][1..] == [];
  }

  /** Equal buffers mean equal parts, one by one. */
  lemma BufferInjective(p: KeyParts, q: KeyParts)
    requires SpacelessDigests(p) && SpacelessDigests(q)
    requires Encode(Records(p)) == Encode(Records(q))
    ensures p == q
  {
    EncodeInjective(Records(p), Records(q));
    SameFields(p, q);
    InputValuesInjective(p, q);
  }

  lemma SameFields(p: KeyParts, q: KeyParts)
    requires |p.inputs| == |p.digests| && |q.inputs| == |q.digests| && Records(p) == Records(q)
    ensures p.platform == q.platform && p.command == q.command && p.env == q.env && p.tool == q.tool
    ensures InputValues(p.inputs, p.digests) == InputValues(q.inputs, q.digests) && p.outputs == q.outputs
  {
    assert p.platform == q.platform by {
      SelectPlatform(p);
      SelectPlatform(q);
      assert [p.platform][0] == [q.platform][0];
    }
    assert p.tool == q.tool by {
      SelectTool(p);
      SelectTool(q);
      assert [p.tool][0] == [q.tool][0];
    }
    assert p.command == q.command by {
      SelectArg(p);
      SelectArg(q);
    }
    assert p.env == q.env by {
      SelectEnv(p);
      SelectEnv(q);
    }
    assert InputValues(p.inputs, p.digests) == InputValues(q.inputs, q.digests) by {
      SelectInput(p);
      SelectInput(q);
    }
    assert p.outputs == q.outputs by {
      SelectOutput(p);
      SelectOutput(q);
    }
  }

  // ---- names, hashes and the environment ----

  type Path = string

  /** What shard accepts as the name of a blob or an entry. */
  predicate ValidName(name: string) {
    |name| >= 3 && forall i :: 0 <= i < |name| ==> '0' <= name[i] <= '9' || 'a' <= name[i] <= 'f'
  }

  const HEX := "0123456789abcdef"

  ghost predicate IsHex(name: string) { |name| >= 3 && forall c :: c in name ==> c in HEX }

  /** Every string of three or more lowercase hex characters is a name, and no other: in
      particular nothing with a path separator or a dot in it is. */
  lemma NamesAreHex(name: string)
    ensures ValidName(name) <==> IsHex(name)
    ensures '/' in name || '.' in name || '\\' in name ==> !ValidName(name)
  {
    assert HEX[0] == '0' && HEX[1] == '1' && HEX[2] == '2' && HEX[3] == '3' && HEX[4] == '4' && HEX[5] == '5'
      && HEX[6] == '6' && HEX[7] == '7' && HEX[8] == '8' && HEX[9] == '9' && HEX[10] == 'a' && HEX[11] == 'b'
      && HEX[12] == 'c' && HEX[13] == 'd' && HEX[14] == 'e' && HEX[15] == 'f';
    forall c: char ensures c in HEX <==> '0' <= c <= '9' || 'a' <= c <= 'f' { HexDigit(c); }
    if ValidName(name) {
      forall c | c in name ensures c in HEX {
        var i :| 0 <= i < |name| && name[i] == c;
      }
    }
    if forall c :: c in name ==> c in HEX {
      forall i | 0 <= i < |name| ensures '0' <= name[i] <= '9' || 'a' <= name[i] <= 'f' { assert name[i] in name; }
    }
  }

  lemma HexDigit(c: char)
    ensures c in HEX <==> '0' <= c <= '9' || 'a' <= c <= 'f'
  {
    if '0' <= c <= '9' { assert HEX[c as int - '0' as int] == c; }
    if 'a' <= c <= 'f' { assert HEX[10 + (c as int - 'a' as int)] == c; }
  }

  /** SHA-256 as the model knows it: no two byte strings collide, and a digest is
      lowercase hex. */
  ghost predicate GoodHash(hash: string -> string) {
    && (forall a, b :: hash(a) == hash(b) ==> a == b)
    && (forall a :: ValidName(hash(a)))
  }

  ghost function SeqOf(s: set<string>): (r: seq<string>)
    ensures NoDup(r) && forall x :: x in r <==> x in s
  {
    if s == {} then [] else
      var x :| x in s;
      [x] + SeqOf(s - {x})
  }

  function SortSeq(s: seq<string>): seq<string> { Sort(s, AtMost) }

  function EnvStrings(keys: seq<string>, env: map<string, string>): (r: seq<string>)
    requires forall i :: 0 <= i < |keys| ==> keys[i] in env
  {
    if keys == [] then [] else [keys[0] + "=" + env[keys[0]]] + EnvStrings(keys[1..], env)
  }

  ghost function SortedKeys(env: map<string, string>): (r: seq<string>)
    ensures forall i :: 0 <= i < |r| ==> r[i] in env
  {
    SortSeqMembers(SeqOf(env.Keys));
    SortSeq(SeqOf(env.Keys))
  }

  /** The environment as the key records it. */
  ghost function EnvList(env: map<string, string>): seq<string> { EnvStrings(SortedKeys(env), env) }

  /** The environment as the process receives it: PATH, then the declared strings in
      their own sorted order. */
  ghost function Environ(path: string, env: map<string, string>): seq<string> {
    (if path != "" then ["PATH=" + path] else []) + SortSeq(EnvList(env))
  }

  /** How many strings come before the declared ones. */
  function Before(path: string): nat { if path != "" then 1 else 0 }

  lemma {:induction false} EnvStringsAre(keys: seq<string>, env: map<string, string>)
    requires forall i :: 0 <= i < |keys| ==> keys[i] in env
    ensures |EnvStrings(keys, env)| == |keys|
    ensures forall i :: 0 <= i < |keys| ==> EnvStrings(keys, env)[i] == keys[i] + "=" + env[keys[i]]
    decreases |keys|
  {
    if keys != [] { EnvStringsAre(keys[1..], env); }
  }

  ghost predicate Declares(env: map<string, string>, s: string) { exists k :: k in env && s == k + "=" + env[k] }

  lemma EnvListDeclares(env: map<string, string>, s: string)
    ensures s in EnvList(env) <==> Declares(env, s)
  {
    SortSeqMembers(SeqOf(env.Keys));
    EnvStringsAre(SortedKeys(env), env);
    if s in EnvList(env) {
      var i :| 0 <= i < |EnvList(env)| && EnvList(env)[i] == s;
      assert SortedKeys(env)[i] in env && s == SortedKeys(env)[i] + "=" + env[SortedKeys(env)[i]];
    }
    if k :| k in env && s == k + "=" + env[k] {
      assert k in SortedKeys(env);
      var i :| 0 <= i < |SortedKeys(env)| && SortedKeys(env)[i] == k;
      assert EnvList(env)[i] == s;
    }
  }

  /** What reaches the process: PATH first if there is one, then the declared pairs and
      nothing else, sorted, so that a declared PATH comes last and wins. */
  lemma EnvironReaches(path: string, env: map<string, string>)
    ensures |Environ(path, env)| == Before(path) + |env|
    ensures path != "" ==> Environ(path, env)[0] == "PATH=" + path
    ensures SortedStrings(Environ(path, env)[Before(path)..], EnvList(env))
    ensures forall s :: s in Environ(path, env)[Before(path)..] <==> Declares(env, s)
  {
    var declared := Environ(path, env)[Before(path)..];
    assert declared == SortSeq(EnvList(env));
    SortSeqMembers(EnvList(env));
    EnvListSize(env);
    forall s ensures s in declared <==> Declares(env, s) { EnvListDeclares(env, s); }
  }

  lemma EnvListSize(env: map<string, string>)
    ensures |EnvList(env)| == |env|
  {
    EnvStringsAre(SortedKeys(env), env);
    SeqOfSize(env.Keys);
  }

  lemma {:induction false} SeqOfSize(s: set<string>)
    ensures |SeqOf(s)| == |s|
    decreases s
  {
    if s != {} {
      var x :| x in s && SeqOf(s) == [x] + SeqOf(s - {x});
      SeqOfSize(s - {x});
    }
  }

  // ---- the key of an action ----

  function Digests(inputs: seq<string>, view: map<Path, string>, hash: string -> string): (r: seq<string>)
    requires forall i :: 0 <= i < |inputs| ==> inputs[i] in view
    ensures |r| == |inputs| && forall i :: 0 <= i < |r| ==> r[i] == hash(view[inputs[i]])
  {
    seq(|inputs|, i requires 0 <= i < |inputs| => hash(view[inputs[i]]))
  }

  ghost predicate Readable(a: Action, view: map<Path, string>) { forall p :: p in a.inputs ==> p in view }

  lemma SortSeqMembers(s: seq<string>)
    ensures forall x :: x in SortSeq(s) <==> x in s
    ensures SortedStrings(SortSeq(s), s)
  {
    AtMostTotalOrder();
    SortSorted(s, AtMost);
    MemberOfSorted(SortSeq(s), s);
  }

  ghost function PartsOf(a: Action, platform: string, tool: string, view: map<Path, string>,
                         hash: string -> string): (p: KeyParts)
    requires Readable(a, view)
    ensures |p.inputs| == |p.digests|
  {
    var inputs := SortSeq(a.inputs);
    SortSeqMembers(a.inputs);
    KeyParts(platform, a.command, EnvList(a.env), tool, inputs, Digests(inputs, view, hash), SortSeq(a.outputs))
  }

  ghost function KeyOf(a: Action, platform: string, tool: string, view: map<Path, string>,
                       hash: string -> string): string
    requires Readable(a, view)
  {
    hash(Encode(Records(PartsOf(a, platform, tool, view, hash))))
  }

  lemma HexHasNoSpace(name: string)
    requires ValidName(name)
    ensures ' ' !in name
  {
  }

  lemma PartsSpaceless(a: Action, platform: string, tool: string, view: map<Path, string>, hash: string -> string)
    requires GoodHash(hash) && Readable(a, view)
    ensures SpacelessDigests(PartsOf(a, platform, tool, view, hash))
  {
    var p := PartsOf(a, platform, tool, view, hash);
    SortSeqMembers(a.inputs);
    forall i | 0 <= i < |p.digests| ensures ' ' !in p.digests[i] { HexHasNoSpace(p.digests[i]); }
  }

  lemma SameParts(a: Action, b: Action, platform1: string, platform2: string, tool1: string, tool2: string,
                  view1: map<Path, string>, view2: map<Path, string>, hash: string -> string)
    requires GoodHash(hash) && Readable(a, view1) && Readable(b, view2)
    requires KeyOf(a, platform1, tool1, view1, hash) == KeyOf(b, platform2, tool2, view2, hash)
    ensures PartsOf(a, platform1, tool1, view1, hash) == PartsOf(b, platform2, tool2, view2, hash)
  {
    PartsSpaceless(a, platform1, tool1, view1, hash);
    PartsSpaceless(b, platform2, tool2, view2, hash);
    BufferInjective(PartsOf(a, platform1, tool1, view1, hash), PartsOf(b, platform2, tool2, view2, hash));
  }

  /** Equal sorted inputs with equal digests are equal files. */
  lemma SameContents(inputs: seq<string>, view1: map<Path, string>, view2: map<Path, string>, hash: string -> string,
                     x: Path)
    requires GoodHash(hash) && x in inputs
    requires forall i :: 0 <= i < |inputs| ==> inputs[i] in view1 && inputs[i] in view2
    requires Digests(inputs, view1, hash) == Digests(inputs, view2, hash)
    ensures x in view1 && x in view2 && view1[x] == view2[x]
  {
    var i :| 0 <= i < |inputs| && inputs[i] == x;
    assert Digests(inputs, view1, hash)[i] == Digests(inputs, view2, hash)[i];
  }

  /** Two actions with the same key run the same command with the same tool, see the same
      environment, read the same bytes from the same paths and promise the same outputs. */
  lemma KeyInjective(a: Action, b: Action, platform1: string, platform2: string, tool1: string, tool2: string,
                     view1: map<Path, string>, view2: map<Path, string>, hash: string -> string, path: string)
    requires GoodHash(hash) && Readable(a, view1) && Readable(b, view2)
    requires KeyOf(a, platform1, tool1, view1, hash) == KeyOf(b, platform2, tool2, view2, hash)
    ensures platform1 == platform2 && tool1 == tool2 && a.command == b.command
    ensures Environ(path, a.env) == Environ(path, b.env)
    ensures multiset(a.inputs) == multiset(b.inputs) && multiset(a.outputs) == multiset(b.outputs)
    ensures forall p :: p in a.inputs ==> p in b.inputs && view1[p] == view2[p]
  {
    SameParts(a, b, platform1, platform2, tool1, tool2, view1, view2, hash);
    SortSeqMembers(a.inputs);
    SortSeqMembers(b.inputs);
    assert EnvList(a.env) == EnvList(b.env);
    SameSort(a.inputs, b.inputs);
    SameSort(a.outputs, b.outputs);
    forall x | x in a.inputs ensures x in b.inputs && view1[x] == view2[x] {
      SameContents(SortSeq(a.inputs), view1, view2, hash, x);
    }
  }

  lemma SameSort(a: seq<string>, b: seq<string>)
    requires SortSeq(a) == SortSeq(b)
    ensures multiset(a) == multiset(b)
  {
    assert multiset(SortSeq(a)) == multiset(a) && multiset(SortSeq(b)) == multiset(b);
  }

  /** Reordering the declared inputs or outputs, or reading equal bytes from another
      workspace, leaves the key as it is. */
  lemma KeyCanonical(a: Action, b: Action, platform: string, tool: string, view1: map<Path, string>,
                     view2: map<Path, string>,
                     hash: string -> string)
    requires Readable(a, view1) && Readable(b, view2)
    requires a.command == b.command && a.env == b.env
    requires multiset(a.inputs) == multiset(b.inputs) && multiset(a.outputs) == multiset(b.outputs)
    requires forall p :: p in a.inputs ==> p in view2 && view1[p] == view2[p]
    ensures KeyOf(a, platform, tool, view1, hash) == KeyOf(b, platform, tool, view2, hash)
  {
    var p, q := PartsOf(a, platform, tool, view1, hash), PartsOf(b, platform, tool, view2, hash);
    AtMostTotalOrder();
    SortCanonical(a.inputs, b.inputs, AtMost);
    SortCanonical(a.outputs, b.outputs, AtMost);
    SortSeqMembers(a.inputs);
    assert p.digests == q.digests;
  }

  ghost function SpecKey(a: Action, platform: string, tool: Option<string>, view: map<Path, string>,
                         hash: string -> string): Option<string>
  {
    if tool.None? || !Readable(a, view) then None else Some(KeyOf(a, platform, tool.value, view, hash))
  }

  // ---- one key, byte by byte ----

  function Compile(): Action {
    Action("compile", [], ["main.c"], ["main.o"], ["cc", "-c"], map["A" := "1"])
  }

  lemma SortOne(x: string)
    ensures SortSeq([x]) == [x] && SeqOf({x}) == [x]
  {
    assert multiset(SortSeq([x])) == multiset([x]);
    assert SortSeq([x])[0] in multiset([x]);
    SeqOfSize({x});
    assert SeqOf({x})[0] in SeqOf({x});
  }

  lemma CompileParts(tool: string, bytes: string, hash: string -> string)
    ensures Readable(Compile(), map["main.c" := bytes])
    ensures PartsOf(Compile(), "linux/amd64", tool, map["main.c" := bytes], hash) ==
      KeyParts("linux/amd64", ["cc", "-c"], ["A=1"], tool, ["main.c"], [hash(bytes)], ["main.o"])
  {
    SortOne("main.c");
    SortOne("main.o");
    SortOne("A");
    assert Compile().env.Keys == {"A"};
    assert SortedKeys(Compile().env) == ["A"];
    assert EnvStrings(["A"], Compile().env) == ["A=1"] by {
      assert ["A"][1..] == [];
      assert "A" + "=" + "1" == "A=1";
    }
    assert Digests(["main.c"], map["main.c" := bytes], hash) == [hash(bytes)];
  }

  lemma TaggedOne(tag: Tag, x: string)
    ensures Tagged(tag, [x]) == [Record(tag, x)]
  {
    assert [x][1..] == [];
  }

  lemma CompileRecords(tool: string, d: string)
    ensures Records(KeyParts("linux/amd64", ["cc", "-c"], ["A=1"], tool, ["main.c"], [d], ["main.o"])) ==
      [Record(Version, "buildforge-key-v1"), Record(Platform, "linux/amd64"), Record(Arg, "cc"), Record(Arg, "-c"),
       Record(Env, "A=1"), Record(Tool, tool), Record(Input, "main.c" + " " + d), Record(Output, "main.o")]
  {
    assert ["cc", "-c"][1..] == ["-c"] && ["main.c"][1..] == [] && [d][1..] == [];
    TaggedOne(Arg, "-c");
    TaggedOne(Env, "A=1");
    assert InputValues(["main.c"], [d]) == ["main.c" + " " + d];
    TaggedOne(Input, "main.c" + " " + d);
    TaggedOne(Output, "main.o");
  }

  lemma Numerals()
    ensures Decimal(2) == "2" && Decimal(3) == "3" && Decimal(6) == "6" && Decimal(11) == "11" && Decimal(17) == "17"
  {
    assert Decimal(1) == "1";
  }

  /** One line of the buffer: what, how many bytes, and the bytes. */
  function Written(what: string, size: string, value: string): string { what + " " + size + "\n" + value + "\n" }

  /** The lines of the buffer, in order. */
  function Lines(tool: string, d: string): seq<string> {
    [Written("version", "17", "buildforge-key-v1"), Written("platform", "11", "linux/amd64"),
     Written("arg", "2", "cc"), Written("arg", "2", "-c"), Written("env", "3", "A=1"),
     Written("tool", Decimal(|tool|), tool), Written("input", Decimal(7 + |d|), "main.c" + " " + d),
     Written("output", "6", "main.o")]
  }

  function Joined(lines: seq<string>): string { if lines == [] then "" else lines[0] + Joined(lines[1..]) }

  lemma LineIsWritten(tag: Tag, value: string)
    ensures Line(Record(tag, value)) == Written(TagText(tag), Decimal(|value|), value)
  {
  }

  lemma CompileLines(tool: string, d: string)
    ensures SameLines([Record(Version, "buildforge-key-v1"), Record(Platform, "linux/amd64"), Record(Arg, "cc"),
                       Record(Arg, "-c"), Record(Env, "A=1"), Record(Tool, tool), Record(Input, "main.c" + " " + d),
                       Record(Output, "main.o")], Lines(tool, d))
  {
    Numerals();
    LineIsWritten(Version, "buildforge-key-v1");
    LineIsWritten(Platform, "linux/amd64");
    LineIsWritten(Arg, "cc");
    LineIsWritten(Arg, "-c");
    LineIsWritten(Env, "A=1");
    LineIsWritten(Tool, tool);
    LineIsWritten(Input, "main.c" + " " + d);
    LineIsWritten(Output, "main.o");
  }

  ghost predicate SameLines(rs: seq<Record>, lines: seq<string>) {
    |rs| == |lines| && forall i :: 0 <= i < |rs| ==> Line(rs[i]) == lines[i]
  }

  lemma {:induction false} EncodeJoins(rs: seq<Record>, lines: seq<string>)
    requires SameLines(rs, lines)
    ensures Encode(rs) == Joined(lines)
    decreases |rs|
  {
    if rs != [] { EncodeJoins(rs[1..], lines[1..]); }
  }

  /** The format is the documented one: these lines in this order, each value after its
      length, and the digest of the whole. */
  lemma KeyOfCompile(tool: string, bytes: string, hash: string -> string)
    ensures SpecKey(Compile(), "linux/amd64", Some(tool), map["main.c" := bytes], hash)
         == Some(hash(Joined(Lines(tool, hash(bytes)))))
  {
    var d := hash(bytes);
    CompileParts(tool, bytes, hash);
    CompileRecords(tool, d);
    CompileLines(tool, d);
    EncodeJoins(Records(KeyParts("linux/amd64", ["cc", "-c"], ["A=1"], tool, ["main.c"], [d], ["main.o"])),
                Lines(tool, d));
  }

  // ---- how the code computes it ----

  /** The digest of the binary a command name resolves to, or None when the name does not
      resolve or the binary cannot be read. */
  function ToolDigest(name: string, resolve: string -> Option<string>, binary: string -> Option<string>,
                      hash: string -> string): Option<string>
  {
    match resolve(name)
    case None => None
    case Some(path) =>
      match binary(path)
      case None => None
      case Some(b) => Some(hash(b))
  }

  /** The bytes of the binary that name resolves to are b. */
  predicate RunsBinary(name: string, resolve: string -> Option<string>, binary: string -> Option<string>, b: string) {
    resolve(name).Some? && binary(resolve(name).value) == Some(b)
  }

  /** A tool has a digest if and only if its name resolves to a binary that can be read. */
  lemma ToolHasDigest(name: string, resolve: string -> Option<string>, binary: string -> Option<string>,
                      hash: string -> string)
    ensures ToolDigest(name, resolve, binary, hash).Some? <==> exists b :: RunsBinary(name, resolve, binary, b)
  {
    if resolve(name).Some? && binary(resolve(name).value).Some? {
      assert RunsBinary(name, resolve, binary, binary(resolve(name).value).value);
    }
  }

  /** The digest of a tool is that of its bytes and of nothing else: two machines, or one
      before and after an upgrade, have the same digest for a name if and only if what it
      resolves to has the same bytes, wherever that is. */
  lemma ToolDigestIsContent(name1: string, resolve1: string -> Option<string>, binary1: string -> Option<string>,
                            b1: string, name2: string, resolve2: string -> Option<string>,
                            binary2: string -> Option<string>, b2: string, hash: string -> string)
    requires GoodHash(hash) && RunsBinary(name1, resolve1, binary1, b1) && RunsBinary(name2, resolve2, binary2, b2)
    ensures ToolDigest(name1, resolve1, binary1, hash) == ToolDigest(name2, resolve2, binary2, hash) <==> b1 == b2
  {
  }

  lemma EqualToolsEqualBytes(name1: string, resolve1: string -> Option<string>, binary1: string -> Option<string>,
                             name2: string, resolve2: string -> Option<string>, binary2: string -> Option<string>,
                             hash: string -> string)
    requires GoodHash(hash) && ToolDigest(name1, resolve1, binary1, hash).Some?
    requires ToolDigest(name1, resolve1, binary1, hash) == ToolDigest(name2, resolve2, binary2, hash)
    ensures exists b :: RunsBinary(name1, resolve1, binary1, b) && RunsBinary(name2, resolve2, binary2, b)
  {
    ToolHasDigest(name1, resolve1, binary1, hash);
    ToolHasDigest(name2, resolve2, binary2, hash);
    var b1 :| RunsBinary(name1, resolve1, binary1, b1);
    var b2 :| RunsBinary(name2, resolve2, binary2, b2);
    ToolDigestIsContent(name1, resolve1, binary1, b1, name2, resolve2, binary2, b2, hash);
  }

  /** Equal keys mean that the tools the commands resolve to have the same bytes, on
      whatever machines the keys were computed. */
  lemma KeyCoversTool(a: Action, b: Action, platform1: string, platform2: string, resolve1: string -> Option<string>,
                      binary1: string -> Option<string>, resolve2: string -> Option<string>,
                      binary2: string -> Option<string>, view1: map<Path, string>, view2: map<Path, string>,
                      hash: string -> string)
    requires GoodHash(hash) && a.command != [] && b.command != []
    requires var key := SpecKey(a, platform1, ToolDigest(a.command[0], resolve1, binary1, hash), view1, hash);
      key.Some? && key == SpecKey(b, platform2, ToolDigest(b.command[0], resolve2, binary2, hash), view2, hash)
    ensures a.command == b.command
    ensures exists bytes :: RunsBinary(a.command[0], resolve1, binary1, bytes)
                            && RunsBinary(b.command[0], resolve2, binary2, bytes)
  {
    var tool1 := ToolDigest(a.command[0], resolve1, binary1, hash);
    var tool2 := ToolDigest(b.command[0], resolve2, binary2, hash);
    KeyInjective(a, b, platform1, platform2, tool1.value, tool2.value, view1, view2, hash, "");
    EqualToolsEqualBytes(a.command[0], resolve1, binary1, b.command[0], resolve2, binary2, hash);
  }

  /** Each resolved path is hashed once and remembered. */
  class ToolCache {
    const resolve: string -> Option<string>
    const binary: string -> Option<string>
    const hash: string -> string
    var m: map<string, string>

    ghost predicate Valid()
      reads this
    {
      forall p :: p in m ==> binary(p).Some? && m[p] == hash(binary(p).value)
    }

    constructor (resolve: string -> Option<string>, binary: string -> Option<string>, hash: string -> string)
      ensures Valid() && this.resolve == resolve && this.binary == binary && this.hash == hash
    {
      this.resolve, this.binary, this.hash := resolve, binary, hash;
      m := map[];
    }

    /** The memo never changes the answer. */
    method Digest(name: string) returns (r: Option<string>)
      requires Valid()
      modifies this
      ensures Valid()
      ensures r == ToolDigest(name, resolve, binary, hash)
    {
      var path := resolve(name);
      if path.None? { return None; }
      if path.value in m { return Some(m[path.value]); }
      var b := binary(path.value);
      if b.None? { return None; }
      var d := hash(b.value);
      m := m[path.value := d];
      return Some(d);
    }
  }

  /** What the workers of digest.Files share: the digests so far and the first error. */
  datatype Pool = Pool(out: map<Path, string>, firstErr: Option<Path>)

  /** One worker's critical section after its file. */
  function Settle(pool: Pool, p: Path, view: map<Path, string>, hash: string -> string): Pool {
    if p in view then pool.(out := pool.out[p := hash(view[p])])
    else if pool.firstErr.None? then pool.(firstErr := Some(p))
    else pool
  }

  /** Of the first next jobs, all those not in flight are settled. */
  ghost predicate JobsSettled(pool: Pool, paths: seq<Path>, next: nat, busy: set<nat>, view: map<Path, string>,
                          hash: string -> string)
  {
    && next <= |paths| && (forall i :: i in busy ==> i < next)
    && (forall i :: 0 <= i < next && i !in busy ==> JobSettled(pool, paths[i], view, hash))
    && (forall p :: p in pool.out ==> p in paths && p in view && pool.out[p] == hash(view[p]))
    && (pool.firstErr.Some? ==> pool.firstErr.value in paths && pool.firstErr.value !in view)
  }

  ghost predicate JobSettled(pool: Pool, p: Path, view: map<Path, string>, hash: string -> string) {
    if p in view then p in pool.out else pool.firstErr.Some?
  }

  lemma SettleOne(pool: Pool, paths: seq<Path>, next: nat, busy: set<nat>, view: map<Path, string>,
                  hash: string -> string, i: nat)
    requires JobsSettled(pool, paths, next, busy, view, hash) && i in busy
    ensures JobsSettled(Settle(pool, paths[i], view, hash), paths, next, busy - {i}, view, hash)
  {
    var pool' := Settle(pool, paths[i], view, hash);
    forall k | 0 <= k < next && k !in busy - {i} ensures JobSettled(pool', paths[k], view, hash) {
      if k != i { assert JobSettled(pool, paths[k], view, hash); }
    }
  }

  lemma AllJobsSettled(pool: Pool, paths: seq<Path>, view: map<Path, string>, hash: string -> string)
    requires JobsSettled(pool, paths, |paths|, {}, view, hash)
    ensures pool.firstErr.None? <==> forall p :: p in paths ==> p in view
    ensures pool.firstErr.None? ==> forall p :: p in pool.out <==> p in paths
  {
    forall p | p in paths ensures JobSettled(pool, p, view, hash) {
      var i :| 0 <= i < |paths| && paths[i] == p;
    }
  }

  /** digest.Files: as many workers as processors, but no more than jobs. The jobs are handed
      out in order to workers that are free, and each worker finishes whenever it does. The
      digests do not depend on that, and the error is that of a missing file. */
  method DigestFiles(paths: seq<Path>, view: map<Path, string>, hash: string -> string)
    returns (r: Option<map<Path, string>>, firstErr: Option<Path>)
    ensures r.Some? <==> forall p :: p in paths ==> p in view
    ensures r.Some? ==> forall p :: p in r.value <==> p in paths
    ensures r.Some? ==> forall p :: p in r.value ==> r.value[p] == hash(view[p])
    ensures r.None? ==> firstErr.Some? && firstErr.value in paths && firstErr.value !in view
  {
    var cpus: nat :| cpus >= 1;
    var workers := if cpus > |paths| then |paths| else cpus;
    var pool := Pool(map[], None);
    var next, busy: set<nat> := 0, {};
    while next < |paths| || busy != {}
      invariant JobsSettled(pool, paths, next, busy, view, hash) && |busy| <= workers
      decreases |paths| - next, |busy|
    {
      var handOver := *;
      if next < |paths| && |busy| < workers && (handOver || busy == {}) {
        busy, next := busy + {next}, next + 1;
      } else {
        var i :| i in busy;
        SettleOne(pool, paths, next, busy, view, hash, i);
        pool, busy := Settle(pool, paths[i], view, hash), busy - {i};
      }
    }
    AllJobsSettled(pool, paths, view, hash);
    return if pool.firstErr.Some? then None else Some(pool.out), pool.firstErr;
  }

  /** The write closure. */
  method Write(buf: string, ghost rs: seq<Record>, tag: Tag, value: string) returns (r: string)
    requires buf == Encode(rs)
    ensures r == Encode(rs + [Record(tag, value)])
  {
    EncodeAppend(rs, [Record(tag, value)]);
    EncodeCons(Record(tag, value), []);
    assert [Record(tag, value)] + [] == [Record(tag, value)];
    r := buf + (TagText(tag) + " " + Decimal(|value|) + "\n" + value + "\n");
  }

  lemma {:induction false} TaggedAppend(tag: Tag, a: seq<string>, b: seq<string>)
    ensures Tagged(tag, a + b) == Tagged(tag, a) + Tagged(tag, b)
    decreases |a|
  {
    if a == [] {
      assert a + b == b;
    } else {
      assert (a + b)[1..] == a[1..] + b;
      TaggedAppend(tag, a[1..], b);
    }
  }

  lemma TaggedStep(rs: seq<Record>, tag: Tag, values: seq<string>, i: nat)
    requires i < |values|
    ensures rs + Tagged(tag, values[..i]) + [Record(tag, values[i])] == rs + Tagged(tag, values[..i + 1])
  {
    assert values[..i + 1] == values[..i] + [values[i]];
    TaggedAppend(tag, values[..i], [values[i]]);
    assert [values[i]][1..] == [];
  }

  /** A loop that writes one record for each value. */
  method WriteAll(buf0: string, ghost rs: seq<Record>, tag: Tag, values: seq<string>) returns (buf: string)
    requires buf0 == Encode(rs)
    ensures buf == Encode(rs + Tagged(tag, values))
  {
    buf := buf0;
    assert rs + Tagged(tag, values[..0]) == rs;
    for i := 0 to |values|
      invariant buf == Encode(rs + Tagged(tag, values[..i]))
    {
      buf := Write(buf, rs + Tagged(tag, values[..i]), tag, values[i]);
      TaggedStep(rs, tag, values, i);
    }
    assert values[..|values|] == values;
  }

  /** Collect the names of the environment in whatever order Go ranges over the map, and
      sort them. */
  method SortKeys(env: map<string, string>) returns (keys: seq<string>)
    ensures keys == SortedKeys(env)
  {
    var collected: seq<string> := [];
    var todo := env.Keys;
    while todo != {}
      invariant todo <= env.Keys && NoDup(collected)
      invariant forall k :: k in collected <==> k in env && k !in todo
      decreases todo
    {
      var k :| k in todo;
      collected := collected + [k];
      todo := todo - {k};
    }
    keys := SortStrings(collected);
    SameMembers(collected, SeqOf(env.Keys));
    SortSeqMembers(SeqOf(env.Keys));
    SortedStringsUnique(keys, SortedKeys(env), collected, SeqOf(env.Keys));
  }

  lemma SortedIsSortSeq(r: seq<string>, s: seq<string>)
    requires SortedStrings(r, s)
    ensures r == SortSeq(s)
  {
    SortSeqMembers(s);
    SortedStringsUnique(r, SortSeq(s), s, s);
  }

  function Head(platform: string): seq<Record> { [Record(Version, KEY_VERSION), Record(Platform, platform)] }

  /** The first half of Key: version, platform, command and environment. */
  method WriteHead(a: Action, platform: string) returns (buf: string)
    ensures buf == Encode(Head(platform) + Tagged(Arg, a.command) + Tagged(Env, EnvList(a.env)))
  {
    buf := Write("", [], Version, KEY_VERSION);
    buf := Write(buf, [] + [Record(Version, KEY_VERSION)], Platform, platform);
    assert [] + [Record(Version, KEY_VERSION)] + [Record(Platform, platform)] == Head(platform);
    buf := WriteAll(buf, Head(platform), Arg, a.command);
    var keys := SortKeys(a.env);
    buf := WriteAll(buf, Head(platform) + Tagged(Arg, a.command), Env, EnvStrings(keys, a.env));
  }

  /** Digest the inputs in sorted order. */
  method InputLines(a: Action, view: map<Path, string>, hash: string -> string) returns (r: Option<seq<string>>)
    ensures r.Some? <==> Readable(a, view)
    ensures r.Some? ==>
      r.value == InputValues(SortSeq(a.inputs), (SortSeqMembers(a.inputs); Digests(SortSeq(a.inputs), view, hash)))
  {
    var inputs := SortStrings(a.inputs);
    SortedIsSortSeq(inputs, a.inputs);
    SortSeqMembers(a.inputs);
    var digests, _ := DigestFiles(inputs, view, hash);
    if digests.None? { return None; }
    var list := seq(|inputs|, i requires 0 <= i < |inputs| && inputs[i] in digests.value => digests.value[inputs[i]]);
    assert list == Digests(inputs, view, hash);
    return Some(InputValues(inputs, list));
  }

  /** Key: the records in the code's order, then the digest of the buffer. */
  method Key(a: Action, platform: string, tools: ToolCache, view: map<Path, string>) returns (r: Option<string>)
    requires tools.Valid() && a.command != []
    modifies tools
    ensures tools.Valid()
    ensures r ==
      SpecKey(a, platform, ToolDigest(a.command[0], tools.resolve, tools.binary, tools.hash), view, tools.hash)
  {
    var buf := WriteHead(a, platform);
    ghost var rs := Head(platform) + Tagged(Arg, a.command) + Tagged(Env, EnvList(a.env));
    var tool := tools.Digest(a.command[0]);
    if tool.None? { return None; }
    buf := Write(buf, rs, Tool, tool.value);
    rs := rs + [Record(Tool, tool.value)];
    var lines := InputLines(a, view, tools.hash);
    if lines.None? { return None; }
    buf := WriteAll(buf, rs, Input, lines.value);
    rs := rs + Tagged(Input, lines.value);
    var outputs := SortStrings(a.outputs);
    SortedIsSortSeq(outputs, a.outputs);
    buf := WriteAll(buf, rs, Output, outputs);
    return Some(tools.hash(buf));
  }

  // ---- the hypothesis on the hash can be met ----

  function HexHash(s: string): string {
    if s == "" then "00a" else HexHash(s[..|s| - 1]) + Decimal(s[|s| - 1] as int) + "a"
  }

  lemma {:induction false} DecimalIsHex(n: nat)
    ensures forall i :: 0 <= i < |Decimal(n)| ==> '0' <= Decimal(n)[i] <= '9'
    decreases n
  {
    if n >= 10 { DecimalIsHex(n / 10); }
  }

  lemma {:induction false} HexHashShape(s: string)
    ensures ValidName(HexHash(s))
    decreases |s|
  {
    if s != "" {
      HexHashShape(s[..|s| - 1]);
      DecimalIsHex(s[|s| - 1] as int);
    }
  }

  /** Every code ends in the letter that ends a character. */
  predicate Ended(h: string) { h != "" && h[|h| - 1] == 'a' }

  lemma HexHashEnds(s: string)
    ensures Ended(HexHash(s))
    ensures s != "" ==> HexHash(s) == HexHash(s[..|s| - 1]) + Decimal(s[|s| - 1] as int) + "a"
  {
  }

  lemma {:induction false} HexHashSize(s: string)
    ensures |HexHash(s)| >= 3 && (s != "" ==> |HexHash(s)| >= 4)
    decreases |s|
  {
    if s != "" { HexHashSize(s[..|s| - 1]); }
  }

  lemma SplitDigits(h: string, x: string, k: string, y: string)
    requires Ended(h) && Ended(k)
    requires 'a' !in x && 'a' !in y && h + x + "a" == k + y + "a"
    ensures h == k && x == y
  {
    assert (h + x + "a")[..|h + x|] == h + x && (k + y + "a")[..|k + y|] == k + y;
    var h', k' := h[..|h| - 1], k[..|k| - 1];
    assert h + x == h' + ['a'] + x && k + y == k' + ['a'] + y;
    SplitLast(h', x, k', y, 'a');
    assert h == h' + ['a'] && k == k' + ['a'];
  }

  lemma HexHashSplit(h: string, c: nat, k: string, d: nat)
    requires Ended(h) && Ended(k) && h + Decimal(c) + "a" == k + Decimal(d) + "a"
    ensures h == k && c == d
  {
    DecimalIsHex(c);
    DecimalIsHex(d);
    SplitDigits(h, Decimal(c), k, Decimal(d));
    DecimalInjective(c, d);
  }

  lemma HexHashTails(s: string, t: string)
    requires s != "" && t != "" && HexHash(s) == HexHash(t)
    ensures HexHash(s[..|s| - 1]) == HexHash(t[..|t| - 1]) && s[|s| - 1] == t[|t| - 1]
  {
    var h, k, c, d := HexHash(s[..|s| - 1]), HexHash(t[..|t| - 1]), s[|s| - 1] as int, t[|t| - 1] as int;
    HexHashEnds(s);
    HexHashEnds(t);
    HexHashEnds(s[..|s| - 1]);
    HexHashEnds(t[..|t| - 1]);
    HexHashSplit(h, c, k, d);
  }

  lemma SameInitSameLast(s: string, t: string)
    requires s != "" && t != "" && s[..|s| - 1] == t[..|t| - 1] && s[|s| - 1] == t[|t| - 1]
    ensures s == t
  {
    assert s == s[..|s| - 1] + [s[|s| - 1]];
    assert t == t[..|t| - 1] + [t[|t| - 1]];
  }

  lemma {:induction false} HexHashInjective(s: string, t: string)
    requires HexHash(s) == HexHash(t)
    ensures s == t
    decreases |s|
  {
    HexHashSize(s);
    HexHashSize(t);
    if s != "" && t != "" {
      HexHashTails(s, t);
      HexHashInjective(s[..|s| - 1], t[..|t| - 1]);
      SameInitSameLast(s, t);
    }
  }

  /** Some function has every property GoodHash asks for, so claims that assume it are not
      empty. */
  lemma GoodHashExists()
    ensures GoodHash(HexHash)
  {
    forall a, b | HexHash(a) == HexHash(b) ensures a == b { HexHashInjective(a, b); }
    forall a ensures ValidName(HexHash(a)) { HexHashShape(a); }
  }
}
