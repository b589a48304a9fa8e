/** Rebasing a story branch with automatic conflict resolution: every exit has left the rebase or
    told git to abort it, and every staged file has a sanctioned origin. Git, the file system and
    the models are oracles: each call may come out any way it can. */
module Rebase {
  import opened Strings
  import opened Fences
  import opened JsonMerge
  import opened UnionMerge

  // ----- File classes -----

  function Base(path: string): string {
    if path == "" then "" else if path[|path| - 1] == '/' then "" else Base(path[..|path| - 1]) + [path[|path| - 1]]
  }

  const LOCK_FILES: set<string> := {"package-lock.json", "npm-shrinkwrap.json", "yarn.lock", "pnpm-lock.yaml", "go.sum",
    "Cargo.lock", "composer.lock", "Gemfile.lock", "poetry.lock", "Pipfile.lock"}

  const UNION_CONFIGS: set<string> := {".gitignore", ".dockerignore", ".npmignore", ".eslintignore", ".prettierignore",
    ".gitattributes"}

  const JSON_CONFIGS: set<string> := {"package.json", "tsconfig.json", "jsconfig.json", "composer.json", "app.json",
    ".babelrc", ".eslintrc.json", ".prettierrc.json", "nest-cli.json"}

  predicate IsLockFile(path: string) {
    Base(path) in LOCK_FILES
  }

  predicate IsUnionConfig(path: string) {
    Base(path) in UNION_CONFIGS
  }

  predicate IsJsonConfig(path: string) {
    var b := Base(path);
    !(b in LOCK_FILES) && (b in JSON_CONFIGS || (HasPrefix(b, "tsconfig.") && HasSuffix(b, ".json")))
  }

  lemma {:induction false} BaseOf(dir: string, name: string)
    requires '/' !in name
    ensures Base(dir + "/" + name) == name
  {
    var path := dir + "/" + name;
    if name != "" {
      var front := name[..|name| - 1];
      BaseOf(dir, front);
      assert path[..|path| - 1] == dir + "/" + front;
      assert front + [name[|name| - 1]] == name;
    }
  }

  /** The class of a file depends on its name alone, wherever it stands. */
  lemma ClassByName(dir: string, name: string)
    requires '/' !in name
    ensures var path := dir + "/" + name;
            && (IsLockFile(path) <==>
                  name in {"package-lock.json", "npm-shrinkwrap.json", "yarn.lock", "pnpm-lock.yaml", "go.sum",
                           "Cargo.lock", "composer.lock", "Gemfile.lock", "poetry.lock", "Pipfile.lock"})
            && (IsUnionConfig(path) <==>
                  name in {".gitignore", ".dockerignore", ".npmignore", ".eslintignore", ".prettierignore",
                           ".gitattributes"})
            && (IsJsonConfig(path) <==>
                  || name in {"package.json", "tsconfig.json", "jsconfig.json", "composer.json", "app.json",
                              ".babelrc", ".eslintrc.json", ".prettierrc.json", "nest-cli.json"}
                  || ("tsconfig." <= name && |name| >= 5 && name[|name| - 5..] == ".json"))
  {
    BaseOf(dir, name);
    hide Base;
    assert name in LOCK_FILES ==> name !in JSON_CONFIGS && !("tsconfig." <= name) by {
      NoLockIsJson(name);
    }
  }

  lemma NoLockIsJson(name: string)
    ensures name in LOCK_FILES ==> name !in JSON_CONFIGS && !("tsconfig." <= name)
  {
    assert name in LOCK_FILES ==> name[0] != 't';
    assert "tsconfig." <= name ==> name[0] == "tsconfig."[0];
  }

  /** No file is in two classes. */
  lemma ClassesAreDisjoint(path: string)
    ensures !(IsLockFile(path) && IsUnionConfig(path)) && !(IsLockFile(path) && IsJsonConfig(path))
    ensures !(IsUnionConfig(path) && IsJsonConfig(path))
  {
    hide Base;
    var name := Base(path);
    assert name in UNION_CONFIGS ==> name[0] == '.';
    assert "tsconfig." <= name ==> name[0] == "tsconfig."[0];
  }

  // ----- Model replies -----

  const CHATTER: seq<string> := ["conflict resolved", "resolved content", "resolved file content",
    "resolved content below", "resolved content:", "kept both sides", "both sides merged", "kept head's",
    "kept incoming", "write blocked on permission", "blocked on permission", "permission denied by harness",
    "cannot write the file", "can't write the file", "i cannot write", "i can't write", "can't write it here",
    "want me to apply", "want me to run", "grant write to apply", "working tree is",
    "returning the resolved content", "apply it to", "apply this on branch", "all functionality retained",
    "no selector collisions", "separate class namespaces"]

  predicate LooksLikeChatter(s: string) {
    exists i :: 0 <= i < |CHATTER| && Contains(ToLower(s), CHATTER[i])
  }

  predicate HasMarkers(s: string) {
    Contains(s, "<<<<<<<") || Contains(s, ">>>>>>>")
  }

  /** llm.StripCodeFences */
  function StripCodeFences(s: string): string {
    var t := TrimSpace(s);
    var lines := Split(t, '\n');
    if HasPrefix(t, FENCE) && |lines| >= 2 then
      var end := if TrimSpace(lines[|lines| - 1]) == FENCE then |lines| - 1 else |lines|;
      Join(lines[1..end], '\n')
    else t
  }

  /** The fenced block of a reply if there is one, else the reply without stray fences. */
  function ExtractContent(resp: string): string {
    var i := Index(resp, FENCE);
    if i < 0 then TrimSpace(StripCodeFences(resp))
    else
      var body := AfterLine(resp[i + 3..]);
      if Index(body, FENCE) >= 0 then TrimSpace(body[..Index(body, FENCE)]) else TrimSpace(StripCodeFences(resp))
  }

  // ----- What is taken from a reply -----

  /** The first fenced block, without its language line, whatever stands before and behind. */
  lemma FencedReply(pre: string, lang: string, body: string, rest: string)
    requires FenceFree(pre) && '\n' !in lang && FenceFree(body)
    ensures ExtractContent(pre + Fenced(lang, body) + rest) == TrimSpace(body)
  {
    hide FenceFree, TrimSpace, StripCodeFences;
    var resp, inner := pre + Fenced(lang, body) + rest, lang + "\n" + (body + FENCE + rest);
    assert resp == pre + FENCE + inner;
    FirstFence(pre, inner);
    assert resp[|pre| + 3..] == inner;
    CutLine(lang, body + FENCE + rest);
    FirstFence(body, rest);
    assert (body + FENCE + rest)[..|body|] == body;
  }

  /** All of it when it has no fence. */
  lemma PlainReply(resp: string)
    requires forall k :: !OccursAt(resp, FENCE, k)
    ensures ExtractContent(resp) == TrimSpace(resp)
  {
    hide TrimSpace;
    var i, j := TrimSlice(resp);
    TrimSpaceTrims(resp);
    TrimSpaceTrims(TrimSpace(resp));
    assert !OccursAt(resp, FENCE, i);
    assert i + 3 <= j ==> resp[i..j][..3] == resp[i..i + 3];
    assert !HasPrefix(TrimSpace(resp), FENCE);
  }

  lemma {:induction false} LastLine(u: string, sep: char) returns (k: nat)
    ensures k <= |u| && Split(u, sep)[|Split(u, sep)| - 1] == u[k..]
  {
    if u == "" {
      k := 0;
    } else {
      var rest := Split(u[1..], sep);
      var tail := LastLine(u[1..], sep);
      if |rest| > 1 || u[0] == sep {
        k := tail + 1;
      } else {
        k := 0;
        JoinSplit(u, sep);
      }
    }
  }

  lemma FirstLine(line: string, u: string)
    requires '\n' !in line
    ensures Split(line + "\n" + u, '\n') == [line] + Split(u, '\n')
  {
    hide Split;
    SplitConcat(line, u, '\n');
    SplitPrefix(line, "", '\n');
    SplitEmpty('\n');
    assert line + "" == line && [line] + [] == [line];
  }

  lemma SliceHasNoFence(s: string, k: nat)
    requires (forall i :: !OccursAt(s, FENCE, i)) && k <= |s|
    ensures TrimSpace(s[k..]) != FENCE
  {
    hide TrimSpace;
    var i, j := TrimSlice(s[k..]);
    assert s[k..][i..j] == s[k + i..k + j];
    assert !OccursAt(s, FENCE, k + i);
  }

  lemma StripTrims(s: string)
    ensures StripCodeFences(s) == StripCodeFences(TrimSpace(s))
  {
    hide TrimSpace, Split, Join;
    TrimSpaceTrims(s);
    TrimSpaceTrims(TrimSpace(s));
  }

  lemma StripOpening(lang: string, u: string)
    requires '\n' !in lang && (forall k :: !OccursAt(u, FENCE, k)) && Trimmed(FENCE + lang + "\n" + u)
    ensures StripCodeFences(FENCE + lang + "\n" + u) == u
  {
    hide TrimSpace, Split, Trimmed, Join;
    var t := FENCE + lang + "\n" + u;
    TrimSpaceTrims(t);
    FirstLine(FENCE + lang, u);
    JoinSplit(u, '\n');
    var k := LastLine(u, '\n');
    SliceHasNoFence(u, k);
    var lines := [FENCE + lang] + Split(u, '\n');
    assert lines[1..|lines|] == Split(u, '\n') && lines[|lines| - 1] == u[k..];
    assert t[..3] == FENCE;
  }

  /** The front of a text up to the last character that is no white space. */
  lemma UpToSpace(body: string) returns (j: nat)
    requires TrimSpace(body) != ""
    ensures 0 < j <= |body| && !IsSpace(body[j - 1]) && TrimSpace(body[..j]) == TrimSpace(body)
    ensures forall k :: j <= k < |body| ==> IsSpace(body[k])
  {
    hide TrimSpace, IsSpace;
    var i;
    i, j := TrimSlice(body);
    TrimSpaceTrims(body);
    TrimExact(body[..i], body[i..j], "");
    assert body[..i] + body[i..j] + "" == body[..j];
    assert body[i..j][j - i - 1] == body[j - 1];
  }

  /** An opening fence at the start goes with its line even if it is never closed. */
  lemma OpenReply(pre: string, lang: string, body: string)
    requires TrimSpace(pre) == "" && '\n' !in lang && TrimSpace(body) != ""
    requires forall k :: !OccursAt(body, FENCE, k)
    ensures ExtractContent(pre + FENCE + lang + "\n" + body) == TrimSpace(body)
  {
    hide TrimSpace, Split, StripCodeFences, IsSpace, FenceFree;
    var resp := pre + FENCE + lang + "\n" + body;
    var j := UpToSpace(body);
    var u := body[..j];
    var t := FENCE + lang + "\n" + u;
    AllSpace(pre);
    TicksStay(t);
    TrimExact(pre, t, body[j..]);
    assert pre + t + body[j..] == resp;
    FirstFence(pre, lang + "\n" + body);
    assert resp == pre + FENCE + (lang + "\n" + body) && resp[|pre| + 3..] == lang + "\n" + body;
    CutLine(lang, body);
    StripTrims(resp);
    FrontHasNoFence(body, j);
    StripOpening(lang, u);
  }

  lemma AllSpace(pre: string)
    requires TrimSpace(pre) == ""
    ensures (forall k :: 0 <= k < |pre| ==> IsSpace(pre[k])) && FenceFree(pre)
  {
    hide TrimSpace;
    var i, j := TrimSlice(pre);
    forall k ensures !OccursAt(pre + "``", FENCE, k) {
      assert 0 <= k && k + 3 <= |pre| + 2 ==> (pre + "``")[k..k + 3][0] == pre[k] && IsSpace(pre[k]);
    }
  }

  lemma TicksStay(t: string)
    requires FENCE <= t && !IsSpace(t[|t| - 1])
    ensures t != "" && Trimmed(t)
  {
    assert t[0] == FENCE[0];
  }

  lemma FrontHasNoFence(s: string, j: nat)
    requires (forall i :: !OccursAt(s, FENCE, i)) && j <= |s|
    ensures forall i :: !OccursAt(s[..j], FENCE, i)
  {
    forall i ensures !OccursAt(s[..j], FENCE, i) {
      assert !OccursAt(s, FENCE, i);
      assert 0 <= i && i + 3 <= j ==> s[..j][i..i + 3] == s[i..i + 3];
    }
  }

  /** What came of asking a model: merged text, a reply that is not one, or no usable reply. */
  datatype Outcome = Resolved(text: string) | Unmergeable | Failure

  /** What a call brought: no model to ask, an error, or a raw reply; `capacity` marks a limit notice
      that came back as content. */
  datatype Reply = Unconfigured | Transport | Content(resp: string, capacity: bool)

  function Judge(reply: Reply): Outcome {
    match reply
    case Unconfigured => Failure
    case Transport => Failure
    case Content(resp, capacity) =>
      var text := ExtractContent(resp);
      if capacity then Failure
      else if HasMarkers(text) || LooksLikeChatter(text) then Unmergeable
      else Resolved(text)
  }

  /** No model answered. */
  predicate NoAnswer(reply: Reply) {
    reply.Unconfigured? || reply.Transport? || (reply.Content? && reply.capacity)
  }

  /** The text still holds a conflict marker, or reads like commentary. */
  ghost predicate NotFileText(text: string) {
    || Contains(text, "<<<<<<<") || Contains(text, ">>>>>>>")
    || exists i :: 0 <= i < |CHATTER| && Contains(ToLower(text), CHATTER[i])
  }

  /** Without an answer there is no outcome to build on; an answer counts as merged text unless it
      holds markers or commentary. */
  ghost predicate Fair(reply: Reply, outcome: Outcome) {
    && (NoAnswer(reply) <==> outcome == Failure)
    && (reply.Content? && !reply.capacity ==>
          var text := ExtractContent(reply.resp);
          outcome == if NotFileText(text) then Unmergeable else Resolved(text))
  }

  lemma JudgeIsFair(reply: Reply)
    ensures Fair(reply, Judge(reply))
  {
    hide ExtractContent, Contains, ToLower;
  }

  // ----- The worktree and what happens to it -----

  /** The two versions of a conflicted file (index stages 2 and 3) and the text with markers. */
  datatype Sides = Sides(ours: string, theirs: string, conflicted: string)

  /** `at` is how much had happened when the file was staged. */
  datatype Staged = Staged(file: string, content: string, sides: Sides, at: nat)

  /** What happened, in order. `left` says whether git obeyed: an abort's errors are ignored. */
  datatype Ev =
    | Asked(file: string, role: Role, reply: Reply, outcome: Outcome)
    | FoundBinary(file: string)
    | TookTheirs(file: string)
    | Listed(ok: bool)
    | Continued(result: GitResult)
    | Aborted(left: bool)

  datatype Role = Senior | TechLead

  datatype GitResult = Done | Conflicts | Error

  datatype Config = Config(maxRounds: int, senior: bool, techLead: bool,
                           decode: string -> Option<Json>, encode: Json -> string)

  function StructuralMerge(cfg: Config, ours: string, theirs: string): Option<string> {
    if TrimSpace(ours) == "" then Some(theirs)
    else if TrimSpace(theirs) == "" then Some(ours)
    else match (cfg.decode(ours), cfg.decode(theirs))
      case (Some(o), Some(t)) => Some(cfg.encode(Merge(o, t)) + "\n")
      case _ => None
  }

  /** A blank side gives way to the other one, untouched. */
  lemma OneSided(cfg: Config, ours: string, theirs: string)
    requires forall i :: 0 <= i < |ours| ==> IsSpace(ours[i])
    ensures StructuralMerge(cfg, ours, theirs) == Some(theirs)
    ensures TrimSpace(theirs) != "" ==> StructuralMerge(cfg, theirs, ours) == Some(theirs)
  {
    hide TrimSpace, IsSpace;
    var i, j := TrimSlice(ours);
    assert i < j ==> ours[i..j][0] == ours[i];
    TrimSpaceTrims(ours);
  }

  /** What has happened since the rebase last went on: the events of the round at hand. */
  function ThisRound(trace: seq<Ev>): seq<Ev> {
    if trace == [] || trace[|trace| - 1].Continued? then []
    else ThisRound(trace[..|trace| - 1]) + [trace[|trace| - 1]]
  }

  /** The only ways a conflicted file may come to its content, all of them in the round at hand. */
  ghost predicate Sanctioned(cfg: Config, file: string, content: string, sides: Sides, trace: seq<Ev>) {
    || (content == sides.ours && (IsLockFile(file) || FoundBinary(file) in ThisRound(trace)))
    || (content == sides.theirs && TookTheirs(file) in ThisRound(trace))
    || (IsUnionConfig(file) && content == Join(UnionLines(sides.conflicted), '\n') + "\n")
    || (IsJsonConfig(file) && Some(content) == StructuralMerge(cfg, sides.ours, sides.theirs))
    || (Answered(file, content, ThisRound(trace)) && !NotFileText(content))
  }

  /** A model was asked about the file and came up with this content. */
  ghost predicate Answered(file: string, content: string, round: seq<Ev>) {
    exists i :: 0 <= i < |round| && IsAnswer(round[i], file, content)
  }

  predicate IsAnswer(e: Ev, file: string, content: string) {
    e.Asked? && e.file == file && e.outcome == Resolved(content)
  }

  ghost predicate AllSanctioned(cfg: Config, staged: seq<Staged>, trace: seq<Ev>) {
    forall i :: 0 <= i < |staged| ==> WasSanctioned(cfg, staged[i], trace)
  }

  /** Sanctioned by the round in which it was staged. */
  ghost predicate WasSanctioned(cfg: Config, s: Staged, trace: seq<Ev>) {
    s.at <= |trace| && Sanctioned(cfg, s.file, s.content, s.sides, trace[..s.at])
  }

  /** The story side is taken only right after a model was asked about the file, and answered with
      markers or commentary: never after an error or a limit notice. */
  ghost predicate FallbackDiscipline(trace: seq<Ev>) {
    forall i :: 0 <= i < |trace| && trace[i].TookTheirs? ==> i > 0 && CannotMerge(trace[i - 1], trace[i].file)
  }

  ghost predicate CannotMerge(e: Ev, file: string) {
    e.Asked? && e.file == file && e.reply.Content? && !e.reply.capacity && NotFileText(ExtractContent(e.reply.resp))
  }

  /** The model asked last about a file did not answer. */
  predicate IsOutage(cfg: Config, e: Ev) {
    e.Asked? && NoAnswer(e.reply) && (e.role.TechLead? || !cfg.techLead)
  }

  ghost predicate Calm(cfg: Config, trace: seq<Ev>) {
    forall i :: 0 <= i < |trace| ==> !IsOutage(cfg, trace[i])
  }

  /** After an outage nothing happens any more but the abort. */
  ghost predicate OutagesEndIt(cfg: Config, trace: seq<Ev>) {
    forall i :: 0 <= i < |trace| && IsOutage(cfg, trace[i]) ==>
      i >= |trace| - 2 && (i == |trace| - 2 ==> trace[|trace| - 1].Aborted?)
  }

  /** Lock files and ignore lists never reach a model. */
  ghost predicate ModelsSpared(trace: seq<Ev>) {
    forall e :: e in trace && e.Asked? ==> !IsLockFile(e.file) && !IsUnionConfig(e.file)
  }

  function Continues(trace: seq<Ev>): nat {
    if trace == [] then 0 else Continues(trace[..|trace| - 1]) + if trace[|trace| - 1].Continued? then 1 else 0
  }

  lemma ContinuesAppend(trace: seq<Ev>, e: Ev)
    ensures Continues(trace + [e]) == Continues(trace) + if e.Continued? then 1 else 0
  {
    assert (trace + [e])[..|trace|] == trace;
  }

  predicate EndsIn(trace: seq<Ev>, e: Ev) {
    trace != [] && trace[|trace| - 1] == e
  }

  predicate GaveUp(trace: seq<Ev>) {
    trace != [] && trace[|trace| - 1].Aborted?
  }

  /** Out of the rebase, unless git refused the abort just asked for. */
  predicate Over(rebasing: bool, trace: seq<Ev>) {
    rebasing ==> EndsIn(trace, Aborted(false))
  }

  predicate OneMore(before: seq<Ev>, after: seq<Ev>) {
    |after| == |before| + 1 && before <= after
  }

  class Worktree {
    var rebasing: bool
    var conflicted: seq<string>
    var sides: map<string, Sides>
    var files: map<string, string>
    var staged: seq<Staged>
    var trace: seq<Ev>

    /** Every conflicted file is listed once and has two sides. */
    ghost predicate Valid()
      reads this
    {
      NoDup(conflicted) && forall f :: f in conflicted ==> f in sides
    }

    constructor ()
      ensures Valid() && !rebasing && staged == [] && trace == []
    {
      rebasing, conflicted, sides, files, staged, trace := false, [], map[], map[], [], [];
    }

    method NewConflicts()
      modifies this`conflicted, this`sides, this`files
      ensures Valid()
    {
      files, sides, conflicted := *, *, *;
      if !NoDup(conflicted) || !(forall f :: f in conflicted ==> f in sides) {
        conflicted := [];
      }
    }

    /** git rebase; after any failure but a conflict it is aborted. */
    method Start() returns (r: GitResult)
      modifies this`rebasing, this`conflicted, this`sides, this`files, this`trace
      ensures Valid() && (r == Conflicts ==> rebasing) && (r == Done ==> !rebasing)
      ensures r != Error ==> trace == old(trace)
      ensures r == Error ==> GaveUp(trace) && trace[..|trace| - 1] == old(trace) && Over(rebasing, trace)
    {
      r := *;
      rebasing := r != Done;
      NewConflicts();
      if r == Error {
        Abort();
      }
    }

    /** git rebase --continue; a conflict in the next commit brings new conflicted files. */
    method Continue() returns (r: GitResult)
      modifies this`rebasing, this`conflicted, this`sides, this`files, this`trace
      ensures Valid() && trace == old(trace) + [Continued(r)] && staged == old(staged)
      ensures rebasing <==> old(rebasing) && r != Done
    {
      r := *;
      trace := trace + [Continued(r)];
      rebasing := rebasing && r != Done;
      NewConflicts();
    }

    /** git rebase --abort, whatever comes of it. */
    method Abort()
      modifies this`rebasing, this`trace
      ensures GaveUp(trace) && trace[..|trace| - 1] == old(trace) && Over(rebasing, trace)
    {
      var left: bool := *;
      rebasing := rebasing && !left;
      trace := trace + [Aborted(left)];
    }

    method Write(file: string, content: string) returns (ok: bool)
      modifies this`files
      ensures ok ==> files == old(files)[file := content]
      ensures !ok ==> files == old(files)
    {
      ok := *;
      if ok {
        files := files[file := content];
      }
    }

    /** git checkout --ours: the branch rebased onto. Not staged. */
    method CheckoutOurs(file: string) returns (ok: bool)
      requires file in sides
      modifies this`files
      ensures ok ==> files == old(files)[file := sides[file].ours]
      ensures !ok ==> files == old(files)
    {
      ok := Write(file, sides[file].ours);
    }

    /** git checkout --theirs and git add: the story's version. */
    method CheckoutTheirs(file: string) returns (ok: bool)
      requires Valid() && file in sides
      modifies this`files, this`staged, this`conflicted, this`trace
      ensures Valid() && trace == old(trace) + [TookTheirs(file)]
      ensures ok ==> files == old(files)[file := sides[file].theirs] && conflicted == Without(old(conflicted), file)
                     && staged == old(staged) + [Staged(file, sides[file].theirs, sides[file], |trace|)]
      ensures !ok ==> files == old(files) && staged == old(staged) && conflicted == old(conflicted)
    {
      trace := trace + [TookTheirs(file)];
      ok := Write(file, sides[file].theirs);
      if ok {
        staged := staged + [Staged(file, sides[file].theirs, sides[file], |trace|)];
        WithoutMembers(conflicted, file);
        conflicted := Without(conflicted, file);
      }
    }

    /** git rm */
    method Remove(file: string) returns (ok: bool)
      requires Valid()
      modifies this`files, this`conflicted
      ensures Valid()
      ensures ok ==> files == old(files) - {file} && conflicted == Without(old(conflicted), file)
      ensures !ok ==> files == old(files) && conflicted == old(conflicted)
    {
      ok := *;
      if ok {
        files := files - {file};
        WithoutMembers(conflicted, file);
        conflicted := Without(conflicted, file);
      }
    }

    /** One call to a model about one file. */
    method Ask(configured: bool, role: Role, file: string) returns (reply: Reply, outcome: Outcome)
      modifies this`trace
      ensures trace == old(trace) + [Asked(file, role, reply, outcome)]
      ensures (reply.Unconfigured? <==> !configured) && Fair(reply, outcome)
    {
      hide ExtractContent, NotFileText;
      reply := *;
      if !configured {
        reply := Unconfigured;
      } else if reply.Unconfigured? {
        reply := Transport;
      }
      JudgeIsFair(reply);
      outcome := Judge(reply);
      trace := trace + [Asked(file, role, reply, outcome)];
    }
  }

  function Without(files: seq<string>, f: string): seq<string> {
    if files == [] then []
    else if files[0] == f then Without(files[1..], f)
    else [files[0]] + Without(files[1..], f)
  }

  lemma {:induction false} WithoutMembers(files: seq<string>, f: string)
    ensures forall x :: x in Without(files, f) <==> x in files && x != f
    ensures NoDup(files) ==> NoDup(Without(files, f))
  {
    if files != [] {
      WithoutMembers(files[1..], f);
      assert files == [files[0]] + files[1..];
      if NoDup(files) {
        var rest := files[1..];
        assert forall i :: 0 <= i < |rest| ==> rest[i] == files[i + 1];
        assert files[0] !in rest;
      }
    }
  }

  // ----- Resolving one file -----

  /** The working copies of the listed files are all sanctioned. */
  ghost predicate Ready(cfg: Config, done: seq<string>, files: map<string, string>, sides: map<string, Sides>, trace: seq<Ev>) {
    forall f :: f in done && f in files && f in sides ==> Sanctioned(cfg, f, files[f], sides[f], trace)
  }

  ghost predicate Sound(cfg: Config, staged: seq<Staged>, trace: seq<Ev>) {
    && AllSanctioned(cfg, staged, trace) && FallbackDiscipline(trace) && ModelsSpared(trace)
    && OutagesEndIt(cfg, trace)
  }

  /** A longer trace keeps what was sanctioned sanctioned. */
  lemma TraceGrows(cfg: Config, staged: seq<Staged>, trace: seq<Ev>, e: Ev)
    requires Sound(cfg, staged, trace)
    requires e.TookTheirs? ==> trace != [] && CannotMerge(trace[|trace| - 1], e.file)
    requires e.Asked? ==> !IsLockFile(e.file) && !IsUnionConfig(e.file)
    requires Calm(cfg, trace) || (e.Aborted? && trace != [] && Calm(cfg, trace[..|trace| - 1]))
    ensures Sound(cfg, staged, trace + [e])
    ensures Calm(cfg, trace) && !IsOutage(cfg, e) ==> Calm(cfg, trace + [e])
  {
    hide IsUnionConfig, IsLockFile, Sanctioned, CannotMerge, IsOutage;
    var longer := trace + [e];
    forall i | 0 <= i < |staged| ensures WasSanctioned(cfg, staged[i], longer) {
      assert WasSanctioned(cfg, staged[i], trace);
      assert longer[..staged[i].at] == trace[..staged[i].at];
    }
    forall i | 0 <= i < |longer| && longer[i].TookTheirs? ensures i > 0 && CannotMerge(longer[i - 1], longer[i].file) {
      if i < |trace| {
        assert trace[i].TookTheirs?;
      }
    }
    OutageIsLate(cfg, trace, e);
  }

  lemma OutageIsLate(cfg: Config, trace: seq<Ev>, e: Ev)
    requires Calm(cfg, trace) || (e.Aborted? && trace != [] && Calm(cfg, trace[..|trace| - 1]))
    ensures OutagesEndIt(cfg, trace + [e])
  {
    hide IsOutage;
    var longer, init := trace + [e], if Calm(cfg, trace) then trace else trace[..|trace| - 1];
    forall i | 0 <= i < |longer| ensures IsOutage(cfg, longer[i]) ==> i >= |init| {
      if i < |init| {
        assert longer[i] == init[i];
      }
    }
  }

  /** Only the given file, the trace, the staging area and the list of conflicts have moved. */
  twostate predicate OnlyTouches(w: Worktree, file: string)
    reads w
  {
    && w.Valid() && w.sides == old(w.sides)
    && (forall f :: f != file ==> (f in w.files <==> f in old(w.files)))
    && (forall f :: f != file && f in w.files ==> w.files[f] == old(w.files)[f])
    && (forall f :: f in w.conflicted ==> f in old(w.conflicted))
    && (forall f :: f != file && f in old(w.conflicted) ==> f in w.conflicted)
    && old(w.staged) <= w.staged && Extends(old(w.trace), w.trace)
  }

  /** The file is gone, or its working copy is staged. */
  ghost predicate Placed(f: string, files: map<string, string>, staged: seq<Staged>) {
    f in files ==> exists i :: 0 <= i < |staged| && IsCopy(staged[i], f, files[f])
  }

  predicate IsCopy(s: Staged, f: string, content: string) {
    s.file == f && s.content == content
  }

  /** The trace has grown, and not by a continued rebase. */
  predicate Extends(before: seq<Ev>, after: seq<Ev>) {
    before <= after && Continues(after) == Continues(before)
  }

  /** How a step on one file ends: the file is resolved, or the rebase is aborted. */
  twostate predicate Resolves(w: Worktree, cfg: Config, file: string, ok: bool)
    reads w
  {
    && OnlyTouches(w, file) && Sound(cfg, w.staged, w.trace) && (ok ==> Calm(cfg, w.trace))
    && (ok ==> file in w.conflicted || file !in old(w.conflicted) || Placed(file, w.files, w.staged))
    && (if ok then w.rebasing == old(w.rebasing) else Over(w.rebasing, w.trace))
    && (if ok then Ready(cfg, [file], w.files, w.sides, w.trace) else GaveUp(w.trace))
  }

  method GiveUp(w: Worktree, ghost cfg: Config)
    requires w.Valid() && Sound(cfg, w.staged, w.trace)
    requires Calm(cfg, w.trace) || (w.trace != [] && Calm(cfg, w.trace[..|w.trace| - 1]))
    modifies w
    ensures w.Valid() && Sound(cfg, w.staged, w.trace) && Over(w.rebasing, w.trace)
    ensures w.sides == old(w.sides) && w.files == old(w.files) && w.conflicted == old(w.conflicted)
    ensures w.staged == old(w.staged)
    ensures Extends(old(w.trace), w.trace) && OneMore(old(w.trace), w.trace) && GaveUp(w.trace)
  {
    hide Sound, Calm;
    w.Abort();
    ghost var last := w.trace[|w.trace| - 1];
    assert w.trace == old(w.trace) + [last];
    TraceGrows(cfg, w.staged, old(w.trace), last);
    ContinuesAppend(old(w.trace), last);
  }

  /** Logs what happened to a file. */
  lemma Happens(w: Worktree, cfg: Config, e: Ev)
    requires w.Valid() && Sound(cfg, w.staged, w.trace) && Calm(cfg, w.trace)
    requires !e.Continued? && !e.Aborted? && !e.Asked?
    requires e.TookTheirs? ==> w.trace != [] && CannotMerge(w.trace[|w.trace| - 1], e.file)
    ensures Sound(cfg, w.staged, w.trace + [e]) && Calm(cfg, w.trace + [e]) && Extends(w.trace, w.trace + [e])
  {
    hide Sound, Calm, CannotMerge;
    TraceGrows(cfg, w.staged, w.trace, e);
    ContinuesAppend(w.trace, e);
  }

  /** Removed if it is too big or compiled, else the version of the branch rebased onto. */
  method ResolveBinary(w: Worktree, ghost cfg: Config, file: string, oversizedOrCompiled: bool) returns (ok: bool)
    requires w.Valid() && file in w.sides && Sound(cfg, w.staged, w.trace) && Calm(cfg, w.trace)
    modifies w
    ensures Resolves(w, cfg, file, ok)
    ensures old(w.trace) <= w.trace && forall i :: |old(w.trace)| <= i < |w.trace| ==> !w.trace[i].Asked?
    ensures ok && oversizedOrCompiled ==> file !in w.files && file !in w.conflicted
    ensures ok && !oversizedOrCompiled ==> file in w.files && w.files[file] == w.sides[file].ours
  {
    hide Sound, Continues, Calm, IsUnionConfig, IsJsonConfig, StructuralMerge, NotFileText, IsLockFile, CannotMerge;
    Happens(w, cfg, FoundBinary(file));
    w.trace := w.trace + [FoundBinary(file)];
    assert w.trace[|w.trace| - 1] == FoundBinary(file);
    if oversizedOrCompiled {
      WithoutMembers(w.conflicted, file);
      ok := w.Remove(file);
    } else {
      ok := w.CheckoutOurs(file);
    }
    if !ok {
      GiveUp(w, cfg);
    }
  }

  /** Writes sanctioned content, or gives up. */
  method WriteOrGiveUp(w: Worktree, ghost cfg: Config, file: string, content: string) returns (ok: bool)
    requires w.Valid() && file in w.sides && Sound(cfg, w.staged, w.trace) && Calm(cfg, w.trace)
    requires Sanctioned(cfg, file, content, w.sides[file], w.trace)
    modifies w
    ensures Resolves(w, cfg, file, ok)
    ensures ok ==> w.trace == old(w.trace) && w.files == old(w.files)[file := content]
    ensures !ok ==> OneMore(old(w.trace), w.trace)
  {
    hide Sound, Continues, Sanctioned, Calm;
    ok := w.Write(file, content);
    if !ok {
      GiveUp(w, cfg);
    }
  }

  /** The deterministic fallback: the story's own version. */
  method FallBack(w: Worktree, ghost cfg: Config, file: string) returns (ok: bool)
    requires w.Valid() && file in w.sides && Sound(cfg, w.staged, w.trace) && Calm(cfg, w.trace)
    requires w.trace != [] && CannotMerge(w.trace[|w.trace| - 1], file)
    modifies w
    ensures Resolves(w, cfg, file, ok)
    ensures OneMore(old(w.trace), if ok then w.trace else w.trace[..|w.trace| - 1])
    ensures w.trace[|old(w.trace)|] == TookTheirs(file)
    ensures ok ==> file in w.files && w.files[file] == w.sides[file].theirs && file !in w.conflicted
                   && w.staged == old(w.staged) + [Staged(file, w.sides[file].theirs, w.sides[file], |w.trace|)]
  {
    hide Sound, Continues, Calm, IsUnionConfig, IsJsonConfig, StructuralMerge, NotFileText, CannotMerge;
    Happens(w, cfg, TookTheirs(file));
    WithoutMembers(w.conflicted, file);
    ghost var staged, side := w.staged, w.sides[file];
    ok := w.CheckoutTheirs(file);
    ghost var trace := w.trace;
    if ok {
      StageSanctioned(cfg, staged, w.trace, Staged(file, side.theirs, side, |w.trace|));
      assert IsCopy(w.staged[|staged|], file, w.files[file]);
    } else {
      GiveUp(w, cfg);
      assert w.trace[..|w.trace| - 1] == trace;
    }
  }

  lemma StageSanctioned(cfg: Config, staged: seq<Staged>, trace: seq<Ev>, s: Staged)
    requires Sound(cfg, staged, trace) && Sanctioned(cfg, s.file, s.content, s.sides, trace) && s.at == |trace|
    ensures Sound(cfg, staged + [s], trace)
  {
    hide Sanctioned, FallbackDiscipline, ModelsSpared, OutagesEndIt;
    assert trace[..s.at] == trace;
  }

  method AskModel(w: Worktree, ghost cfg: Config, role: Role, configured: bool, file: string)
    returns (reply: Reply, outcome: Outcome)
    requires w.Valid() && Sound(cfg, w.staged, w.trace) && Calm(cfg, w.trace) && !IsLockFile(file) && !IsUnionConfig(file)
    modifies w`trace
    ensures OnlyTouches(w, file) && Sound(cfg, w.staged, w.trace)
    ensures w.trace == old(w.trace) + [Asked(file, role, reply, outcome)]
    ensures IsOutage(cfg, Asked(file, role, reply, outcome)) || Calm(cfg, w.trace)
    ensures (reply.Unconfigured? <==> !configured) && Fair(reply, outcome)
  {
    hide Sound, Continues, Calm, Fair, IsOutage;
    reply, outcome := w.Ask(configured, role, file);
    TraceGrows(cfg, w.staged, old(w.trace), Asked(file, role, reply, outcome));
    ContinuesAppend(old(w.trace), Asked(file, role, reply, outcome));
  }

  /** Whether the tech lead is asked once the senior has been. */
  predicate AsksTechLead(cfg: Config, senior: Outcome, wide: bool) {
    cfg.techLead && (wide || !senior.Resolved?)
  }

  /** What asking about a file adds to the trace: the senior, the tech lead if there is one and the
      senior has no merged text or the conflict is wide; then nothing on merged text, the story side
      on an answer that is none, and an abort on an outage or a write that fails. */
  ghost predicate ModelSteps(cfg: Config, file: string, wide: bool, added: seq<Ev>, ok: bool) {
    && added != [] && added[0].Asked? && added[0].file == file && added[0].role.Senior?
    && Fair(added[0].reply, added[0].outcome) && (added[0].reply.Unconfigured? <==> !cfg.senior)
    && if AsksTechLead(cfg, added[0].outcome, wide) then
         && |added| > 1 && added[1].Asked? && added[1].file == file && added[1].role.TechLead?
         && Fair(added[1].reply, added[1].outcome) && !added[1].reply.Unconfigured?
         && Consequence(added[1].outcome, file, added[2..], ok)
       else
         Consequence(added[0].outcome, file, added[1..], ok)
  }

  predicate Consequence(outcome: Outcome, file: string, rest: seq<Ev>, ok: bool) {
    match outcome
    case Failure => !ok && |rest| == 1 && rest[0].Aborted?
    case Unmergeable => if ok then rest == [TookTheirs(file)] else |rest| == 2 && rest[0] == TookTheirs(file) && rest[1].Aborted?
    case Resolved(_) => if ok then rest == [] else |rest| == 1 && rest[0].Aborted?
  }

  /** The last outcome, and what it makes of the file. */
  ghost predicate ModelResult(outcome: Outcome, sides: Sides, content: string) {
    outcome == Resolved(content) || (outcome == Unmergeable && content == sides.theirs)
  }

  /** Acts on what the model asked last has said. */
  method ActOn(w: Worktree, ghost cfg: Config, file: string, role: Role, reply: Reply, outcome: Outcome) returns (ok: bool)
    requires w.Valid() && file in w.sides && Sound(cfg, w.staged, w.trace) && Fair(reply, outcome)
    requires w.trace != [] && w.trace[|w.trace| - 1] == Asked(file, role, reply, outcome)
    requires Calm(cfg, w.trace) || (outcome == Failure && Calm(cfg, w.trace[..|w.trace| - 1]))
    modifies w
    ensures Resolves(w, cfg, file, ok)
    ensures old(w.trace) <= w.trace && Consequence(outcome, file, w.trace[|old(w.trace)|..], ok)
    ensures ok ==> file in w.files && ModelResult(outcome, w.sides[file], w.files[file])
  {
    hide Sound, Continues, Calm, NotFileText, IsUnionConfig, IsJsonConfig, StructuralMerge, Ready, IsLockFile, ExtractContent;
    match outcome
    case Failure =>
      GiveUp(w, cfg);
      ok := false;
    case Unmergeable =>
      ok := FallBack(w, cfg, file);
    case Resolved(text) =>
      AnswerSanctions(cfg, file, text, w.sides[file], w.trace);
      ok := WriteOrGiveUp(w, cfg, file, text);
  }

  lemma AnswerSanctions(cfg: Config, file: string, text: string, sides: Sides, trace: seq<Ev>)
    requires trace != [] && IsAnswer(trace[|trace| - 1], file, text) && !NotFileText(text)
    ensures Sanctioned(cfg, file, text, sides, trace)
  {
    hide NotFileText, IsUnionConfig, IsJsonConfig, StructuralMerge, IsLockFile;
    var round := ThisRound(trace);
    assert round[|round| - 1] == trace[|trace| - 1];
  }

  /** Senior first; the tech lead if the senior fails or the conflict is wide. */
  method ResolveByModel(w: Worktree, cfg: Config, file: string, needsTechLead: bool) returns (ok: bool)
    requires w.Valid() && file in w.sides && Sound(cfg, w.staged, w.trace) && Calm(cfg, w.trace)
    requires !IsLockFile(file) && !IsUnionConfig(file)
    modifies w
    ensures Resolves(w, cfg, file, ok)
    ensures old(w.trace) <= w.trace && ModelSteps(cfg, file, needsTechLead, w.trace[|old(w.trace)|..], ok)
    ensures ok ==> file in w.files && Left(w.trace[|old(w.trace)|..], w.sides[file], w.files[file])
  {
    hide Sound, Continues, Calm, Fair, IsUnionConfig, IsJsonConfig, StructuralMerge, Ready, IsLockFile, Consequence,
         ModelResult, ModelSteps, Left;
    ghost var start := w.trace;
    var reply, outcome := AskModel(w, cfg, Senior, cfg.senior, file);
    ghost var first := Asked(file, Senior, reply, outcome);
    if (!outcome.Resolved? || needsTechLead) && cfg.techLead {
      assert !IsOutage(cfg, first);
      reply, outcome := AskModel(w, cfg, TechLead, true, file);
      ghost var second, asked := Asked(file, TechLead, reply, outcome), w.trace;
      OutageIsFailure(cfg, second);
      assert asked[..|asked| - 1] == start + [first];
      ok := ActOn(w, cfg, file, TechLead, reply, outcome);
      StepsOfTwo(cfg, file, needsTechLead, start, first, second, w.trace, ok, w.sides[file], w.files);
    } else {
      ghost var asked := w.trace;
      OutageIsFailure(cfg, first);
      assert asked[..|asked| - 1] == start;
      ok := ActOn(w, cfg, file, Senior, reply, outcome);
      StepsOfOne(cfg, file, needsTechLead, start, first, w.trace, ok, w.sides[file], w.files);
    }
  }

  lemma StepsOfOne(cfg: Config, file: string, wide: bool, start: seq<Ev>, first: Ev, trace: seq<Ev>, ok: bool,
                   sides: Sides, files: map<string, string>)
    requires first.Asked? && first.file == file && first.role.Senior? && Fair(first.reply, first.outcome)
    requires (first.reply.Unconfigured? <==> !cfg.senior) && !AsksTechLead(cfg, first.outcome, wide)
    requires start + [first] <= trace && Consequence(first.outcome, file, trace[|start| + 1..], ok)
    requires ok ==> file in files && ModelResult(first.outcome, sides, files[file])
    ensures start <= trace && ModelSteps(cfg, file, wide, trace[|start|..], ok)
    ensures ok ==> Left(trace[|start|..], sides, files[file])
  {
    hide Fair, ModelResult;
    var added := trace[|start|..];
    assert added[0] == (start + [first])[|start|] == first && added[1..] == trace[|start| + 1..];
    assert start == (start + [first])[..|start|] == trace[..|start|];
    if ok {
      assert |added| > 1 ==> added[1] == added[1..][0];
      assert LeftBy(added, 0, sides, files[file]);
    }
  }

  lemma StepsOfTwo(cfg: Config, file: string, wide: bool, start: seq<Ev>, first: Ev, second: Ev, trace: seq<Ev>, ok: bool,
                   sides: Sides, files: map<string, string>)
    requires first.Asked? && first.file == file && first.role.Senior? && Fair(first.reply, first.outcome)
    requires (first.reply.Unconfigured? <==> !cfg.senior) && AsksTechLead(cfg, first.outcome, wide)
    requires second.Asked? && second.file == file && second.role.TechLead? && Fair(second.reply, second.outcome)
    requires !second.reply.Unconfigured?
    requires start + [first] + [second] <= trace && Consequence(second.outcome, file, trace[|start| + 2..], ok)
    requires ok ==> file in files && ModelResult(second.outcome, sides, files[file])
    ensures start <= trace && ModelSteps(cfg, file, wide, trace[|start|..], ok)
    ensures ok ==> Left(trace[|start|..], sides, files[file])
  {
    hide Fair, ModelResult;
    var added, asked := trace[|start|..], start + [first] + [second];
    assert added[0] == asked[|start|] == first && added[1] == asked[|start| + 1] == second;
    assert added[2..] == trace[|start| + 2..];
    assert start == asked[..|start|] == trace[..|start|];
    if ok {
      assert |added| > 2 ==> added[2] == added[2..][0];
      assert LeftBy(added, 1, sides, files[file]);
    }
  }

  /** The file holds the merged text of the model asked last, or the story's version. */
  ghost predicate Left(added: seq<Ev>, sides: Sides, content: string) {
    exists i :: 0 <= i < |added| && LeftBy(added, i, sides, content)
  }

  ghost predicate LeftBy(added: seq<Ev>, i: nat, sides: Sides, content: string)
    requires i < |added|
  {
    added[i].Asked? && (i + 1 == |added| || !added[i + 1].Asked?) && ModelResult(added[i].outcome, sides, content)
  }

  lemma OutageIsFailure(cfg: Config, e: Ev)
    requires e.Asked? && Fair(e.reply, e.outcome)
    ensures IsOutage(cfg, e) ==> e.outcome == Failure
  {
  }

  /** What a look at the file shows: git's word on binary content, its size and name, whether it can be
      read, and whether both sides can. */
  datatype Look = Look(binary: bool, oversized: bool, readable: bool, bothSides: bool)

  /** Each class of files has its own way: binary, lock file, ignore list, JSON configuration whose
      sides can be merged; only the rest goes to a model. */
  method ResolveOne(w: Worktree, cfg: Config, file: string, needsTechLead: bool) returns (ok: bool, look: Look)
    requires w.Valid() && file in w.sides && Sound(cfg, w.staged, w.trace) && Calm(cfg, w.trace)
    modifies w
    ensures Resolves(w, cfg, file, ok)
    ensures old(w.trace) <= w.trace && Escalates(cfg, needsTechLead, w.trace[|old(w.trace)|..])
    ensures ok && look.binary && look.oversized ==> file !in w.files && file !in w.conflicted
    ensures ok && !(look.binary && look.oversized) ==> file in w.files
    ensures ok && look.binary && !look.oversized ==> w.files[file] == w.sides[file].ours
    ensures ok && !look.binary && IsLockFile(file) ==> w.files[file] == w.sides[file].ours
    ensures !look.binary && !IsLockFile(file) ==>
              && (!look.readable ==> !ok)
              && (IsUnionConfig(file) && ok ==>
                    w.files[file] == Join(UnionLines(old(w.sides)[file].conflicted), '\n') + "\n" && w.trace == old(w.trace))
              && (look.readable && !IsUnionConfig(file) ==>
                    if Mergeable(cfg, file, w.sides[file], look) then
                      ok ==> w.trace == old(w.trace) && Some(w.files[file]) == StructuralMerge(cfg, w.sides[file].ours, w.sides[file].theirs)
                    else
                      && old(w.trace) <= w.trace && ModelSteps(cfg, file, needsTechLead, w.trace[|old(w.trace)|..], ok)
                      && (ok ==> Left(w.trace[|old(w.trace)|..], w.sides[file], w.files[file])))
  {
    hide Sound, Continues, Calm, NotFileText, IsUnionConfig, IsJsonConfig, StructuralMerge, IsLockFile, UnionLines, ModelSteps, Left, Escalates;
    look := *;
    if look.binary {
      ok := ResolveBinary(w, cfg, file, look.oversized);
      UnaskedEscalates(cfg, needsTechLead, w.trace[|old(w.trace)|..]);
      return;
    }
    if IsLockFile(file) {
      ok := w.CheckoutOurs(file);
      if !ok {
        GiveUp(w, cfg);
      }
      UnaskedEscalates(cfg, needsTechLead, w.trace[|old(w.trace)|..]);
      return;
    }
    if !look.readable {
      GiveUp(w, cfg);
      UnaskedEscalates(cfg, needsTechLead, w.trace[|old(w.trace)|..]);
      ok := false;
      return;
    }
    var content := w.sides[file].conflicted;
    if IsUnionConfig(file) {
      var resolved := UnionResolveConflict(content);
      ok := WriteOrGiveUp(w, cfg, file, resolved + "\n");
      UnaskedEscalates(cfg, needsTechLead, w.trace[|old(w.trace)|..]);
      return;
    }
    if IsJsonConfig(file) && look.bothSides {
      var merged := StructuralMerge(cfg, w.sides[file].ours, w.sides[file].theirs);
      if merged.Some? {
        ok := WriteOrGiveUp(w, cfg, file, merged.value);
        UnaskedEscalates(cfg, needsTechLead, w.trace[|old(w.trace)|..]);
        return;
      }
    }
    ok := ResolveByModel(w, cfg, file, needsTechLead);
    ModelStepsEscalate(cfg, file, needsTechLead, w.trace[|old(w.trace)|..], ok);
  }

  predicate Mergeable(cfg: Config, file: string, sides: Sides, look: Look) {
    IsJsonConfig(file) && look.bothSides && StructuralMerge(cfg, sides.ours, sides.theirs).Some?
  }

  // ----- A round, and the whole rebase -----

  lemma {:induction false} CountGrows(before: seq<Ev>, after: seq<Ev>)
    requires before <= after
    ensures Continues(before) <= Continues(after)
    decreases |after|
  {
    if |before| < |after| {
      CountGrows(before, after[..|after| - 1]);
    } else {
      assert before == after;
    }
  }

  /** Within a round its events only grow. */
  lemma {:induction false} SameRound(before: seq<Ev>, after: seq<Ev>)
    requires Extends(before, after)
    ensures ThisRound(before) <= ThisRound(after)
    decreases |after|
  {
    if |before| < |after| {
      var init := after[..|after| - 1];
      CountGrows(before, init);
      SameRound(before, init);
    } else {
      assert before == after;
    }
  }

  lemma ReadyLonger(cfg: Config, done: seq<string>, files: map<string, string>, sides: map<string, Sides>,
                    trace: seq<Ev>, trace': seq<Ev>)
    requires Ready(cfg, done, files, sides, trace) && Extends(trace, trace')
    ensures Ready(cfg, done, files, sides, trace')
  {
    hide IsUnionConfig, IsJsonConfig, StructuralMerge, HasMarkers, LooksLikeChatter, IsLockFile, ThisRound, Continues;
    SameRound(trace, trace');
    var round, round' := ThisRound(trace), ThisRound(trace');
    forall e | e in round ensures e in round' {
      var i :| 0 <= i < |round| && round[i] == e;
      assert round'[i] == e;
    }
  }

  lemma ReadyOneMore(cfg: Config, done: seq<string>, file: string, files: map<string, string>, files': map<string, string>,
                     sides: map<string, Sides>, trace: seq<Ev>)
    requires Ready(cfg, done, files, sides, trace) && Ready(cfg, [file], files', sides, trace)
    requires forall f :: f != file && f in files' ==> f in files && files'[f] == files[f]
    ensures Ready(cfg, done + [file], files', sides, trace)
  {
    hide Sanctioned;
  }

  /** The tech lead is asked right after the senior where the policy says so, and nowhere else. */
  ghost predicate Escalates(cfg: Config, wide: bool, added: seq<Ev>) {
    && (added == [] || !AsksLead(added[0]))
    && forall i :: 0 <= i < |added| ==> EscalatesAt(cfg, wide, added, i)
  }

  predicate AsksLead(e: Ev) {
    e.Asked? && e.role.TechLead?
  }

  ghost predicate EscalatesAt(cfg: Config, wide: bool, added: seq<Ev>, i: nat)
    requires i < |added|
  {
    var next := i + 1 < |added| && AsksLead(added[i + 1]);
    if added[i].Asked? && added[i].role.Senior? then
      && (next <==> AsksTechLead(cfg, added[i].outcome, wide))
      && (next ==> added[i + 1].file == added[i].file)
    else !next
  }

  lemma EscalatesJoin(cfg: Config, wide: bool, a: seq<Ev>, b: seq<Ev>)
    requires Escalates(cfg, wide, a) && Escalates(cfg, wide, b)
    ensures Escalates(cfg, wide, a + b)
  {
    hide AsksTechLead;
    var c := a + b;
    forall i | 0 <= i < |c| ensures EscalatesAt(cfg, wide, c, i) {
      if i < |a| {
        assert EscalatesAt(cfg, wide, a, i);
      } else {
        assert EscalatesAt(cfg, wide, b, i - |a|);
      }
    }
  }

  lemma UnaskedEscalates(cfg: Config, wide: bool, added: seq<Ev>)
    requires forall i :: 0 <= i < |added| ==> !added[i].Asked?
    ensures Escalates(cfg, wide, added)
  {
  }

  lemma ModelStepsEscalate(cfg: Config, file: string, wide: bool, added: seq<Ev>, ok: bool)
    requires ModelSteps(cfg, file, wide, added, ok)
    ensures Escalates(cfg, wide, added)
  {
    hide Fair;
    var n := if AsksTechLead(cfg, added[0].outcome, wide) then 2 else 1;
    forall i | 0 <= i < |added| ensures EscalatesAt(cfg, wide, added, i) {
      assert i >= n ==> added[i] == added[n..][i - n];
      assert i + 1 >= n && i + 1 < |added| ==> added[i + 1] == added[n..][i + 1 - n];
    }
  }

  method ResolveFiles(w: Worktree, cfg: Config, files: seq<string>) returns (ok: bool)
    requires w.Valid() && w.rebasing && Sound(cfg, w.staged, w.trace) && Calm(cfg, w.trace) && files == w.conflicted
    modifies w
    ensures w.Valid() && Sound(cfg, w.staged, w.trace) && Extends(old(w.trace), w.trace)
    ensures w.sides == old(w.sides) && forall f :: f in w.conflicted ==> f in old(w.conflicted)
    ensures ok ==> w.rebasing && Calm(cfg, w.trace) && Ready(cfg, files, w.files, w.sides, w.trace)
    ensures ok ==> forall f :: f in files ==> f in w.conflicted || Placed(f, w.files, w.staged)
    ensures !ok ==> GaveUp(w.trace) && Over(w.rebasing, w.trace)
    ensures Escalates(cfg, |files| > 3, w.trace[|old(w.trace)|..])
  {
    hide Sound, Calm, Continues, Sanctioned, Ready, Escalates, Placed;
    NothingReady(cfg, w.files, w.sides, w.trace);
    ghost var done: seq<string>, added: seq<Ev> := [], [];
    UnaskedEscalates(cfg, |files| > 3, added);
    for i := 0 to |files|
      invariant done == files[..i]
      invariant w.Valid() && w.rebasing && Sound(cfg, w.staged, w.trace) && Calm(cfg, w.trace) && Extends(old(w.trace), w.trace)
      invariant w.sides == old(w.sides)
      invariant forall f :: f in w.conflicted ==> f in old(w.conflicted)
      invariant forall f :: f in files[i..] ==> f in w.conflicted
      invariant forall f :: f in done ==> f in w.conflicted || Placed(f, w.files, w.staged)
      invariant Ready(cfg, done, w.files, w.sides, w.trace)
      invariant w.trace == old(w.trace) + added && Escalates(cfg, |files| > 3, added)
    {
      ghost var before, trace, staged, conflicted := w.files, w.trace, w.staged, w.conflicted;
      var look;
      assert files[i] in files[i..];
      ok, look := ResolveOne(w, cfg, files[i], |files| > 3);
      EscalatesJoin(cfg, |files| > 3, added, w.trace[|trace|..]);
      added := added + w.trace[|trace|..];
      assert w.trace == trace + w.trace[|trace|..];
      if !ok {
        assert w.trace[|old(w.trace)|..] == added;
        return;
      }
      ReadyLonger(cfg, done, before, w.sides, trace, w.trace);
      ReadyOneMore(cfg, done, files[i], before, w.files, w.sides, w.trace);
      forall f | f in done ensures f in w.conflicted || Placed(f, w.files, w.staged) {
        NotLaterInList(files, i, f);
        if f !in conflicted {
          StaysPlaced(f, before, staged, w.files, w.staged);
        }
      }
      forall f | f in files[i + 1..] ensures f in w.conflicted {
        NotAtHand(files, i, f);
      }
      done := done + [files[i]];
    }
    assert done == files;
    assert w.trace[|old(w.trace)|..] == added;
    ok := true;
  }

  lemma NotLaterInList(files: seq<string>, i: nat, f: string)
    requires NoDup(files) && i < |files| && f in files[..i]
    ensures f != files[i]
  {
  }

  lemma NotAtHand(files: seq<string>, i: nat, f: string)
    requires NoDup(files) && i < |files| && f in files[i + 1..]
    ensures f != files[i] && f in files[i..]
  {
    assert files[i..] == [files[i]] + files[i + 1..];
  }

  lemma StaysPlaced(f: string, files: map<string, string>, staged: seq<Staged>, files': map<string, string>,
                    staged': seq<Staged>)
    requires Placed(f, files, staged) && staged <= staged'
    requires (f in files' <==> f in files) && (f in files ==> files'[f] == files[f])
    ensures Placed(f, files', staged')
  {
    if f in files {
      var i :| 0 <= i < |staged| && IsCopy(staged[i], f, files[f]);
      assert staged'[i] == staged[i];
    }
  }

  lemma NothingReady(cfg: Config, files: map<string, string>, sides: map<string, Sides>, trace: seq<Ev>)
    ensures Ready(cfg, [], files, sides, trace)
  {
  }

  /** git add for the files git still lists as conflicted. */
  method StageFiles(w: Worktree, ghost cfg: Config, ghost files: seq<string>) returns (ok: bool)
    requires w.Valid() && Sound(cfg, w.staged, w.trace) && Ready(cfg, files, w.files, w.sides, w.trace)
    requires forall f :: f in w.conflicted ==> f in files
    modifies w`staged
    ensures Sound(cfg, w.staged, w.trace) && old(w.staged) <= w.staged
    ensures ok ==> forall f :: f in w.conflicted ==> Placed(f, w.files, w.staged)
    ensures !ok ==> w.staged == old(w.staged)
  {
    hide Sound, Sanctioned;
    ok := *;
    if !ok {
      return;
    }
    for i := 0 to |w.conflicted|
      invariant Sound(cfg, w.staged, w.trace) && old(w.staged) <= w.staged
      invariant forall f :: f in w.conflicted[..i] ==> Placed(f, w.files, w.staged)
    {
      var f := w.conflicted[i];
      ghost var staged := w.staged;
      if f in w.files {
        StageSanctioned(cfg, w.staged, w.trace, Staged(f, w.files[f], w.sides[f], |w.trace|));
        w.staged := w.staged + [Staged(f, w.files[f], w.sides[f], |w.trace|)];
        assert IsCopy(w.staged[|staged|], f, w.files[f]);
      }
      forall g | g in w.conflicted[..i] ensures Placed(g, w.files, w.staged) {
        StaysPlaced(g, w.files, staged, w.files, w.staged);
      }
      assert w.conflicted[..i + 1] == w.conflicted[..i] + [f];
    }
    assert w.conflicted[..|w.conflicted|] == w.conflicted;
  }

  /** How a round ends: the rebase is over, it is given up, or the next commit conflicts too. */
  datatype RoundEnd = Finished | Failed | Again

  method ContinueOnce(w: Worktree, ghost cfg: Config) returns (end: RoundEnd)
    requires w.Valid() && w.rebasing && Sound(cfg, w.staged, w.trace) && Calm(cfg, w.trace)
    modifies w
    ensures w.Valid() && Sound(cfg, w.staged, w.trace) && w.staged == old(w.staged)
    ensures old(w.trace) <= w.trace && forall i :: |old(w.trace)| <= i < |w.trace| ==> !w.trace[i].Asked?
    ensures Continues(w.trace) == Continues(old(w.trace)) + 1
    ensures end == Finished ==> !w.rebasing && EndsIn(w.trace, Continued(Done))
    ensures end == Again ==> w.rebasing && EndsIn(w.trace, Continued(Conflicts))
    ensures end != Failed ==> OneMore(old(w.trace), w.trace) && Calm(cfg, w.trace)
    ensures end == Failed ==> GaveUp(w.trace) && Over(w.rebasing, w.trace)
                              && w.trace[..|w.trace| - 1] == old(w.trace) + [Continued(Error)]
  {
    hide Sound, Calm;
    var r := w.Continue();
    TraceGrows(cfg, w.staged, old(w.trace), Continued(r));
    ContinuesAppend(old(w.trace), Continued(r));
    match r
    case Done => end := Finished;
    case Conflicts => end := Again;
    case Error =>
      ghost var trace := w.trace;
      GiveUp(w, cfg);
      assert w.trace[..|w.trace| - 1] == trace;
      end := Failed;
  }

  /** What a round found: whether git listed the conflicts, and listed what was left of them once they
      were resolved; and the working copies when the round went on. */
  datatype Notes = Notes(listed: bool, relisted: bool, continued: bool, copies: map<string, string>)

  /** The abort did not come right after a fresh conflict: something went wrong in this round. */
  predicate WentWrong(trace: seq<Ev>) {
    |trace| >= 2 && trace[|trace| - 2] != Continued(Conflicts)
  }

  lemma {:induction false} NoContinueInside(before: seq<Ev>, after: seq<Ev>, i: nat)
    requires Extends(before, after) && |before| <= i < |after|
    ensures !after[i].Continued?
    decreases |after|
  {
    var init := after[..|after| - 1];
    CountGrows(before, init);
    if i < |init| {
      NoContinueInside(before, init, i);
    }
  }

  lemma StillWentWrong(start: seq<Ev>, trace: seq<Ev>)
    requires EndsIn(start, Listed(true)) && Extends(start, trace) && |start| < |trace|
    ensures WentWrong(trace)
  {
    if |trace| - 2 >= |start| {
      NoContinueInside(start, trace, |trace| - 2);
    } else {
      assert trace[|start| - 1] == start[|start| - 1];
    }
  }

  /** Resolves the listed files and stages what git still lists then. */
  method ResolveAndStage(w: Worktree, cfg: Config, files: seq<string>, notes0: Notes) returns (ok: bool, notes: Notes)
    requires w.Valid() && w.rebasing && Sound(cfg, w.staged, w.trace) && Calm(cfg, w.trace) && files == w.conflicted
    requires EndsIn(w.trace, Listed(true))
    modifies w
    ensures w.Valid() && Sound(cfg, w.staged, w.trace) && Extends(old(w.trace), w.trace)
    ensures Escalates(cfg, |files| > 3, w.trace[|old(w.trace)|..])
    ensures notes == notes0.(relisted := notes.relisted, copies := notes.copies)
    ensures ok ==> w.rebasing && Calm(cfg, w.trace)
    ensures ok && notes.relisted ==> forall f :: f in files ==> Placed(f, notes.copies, w.staged)
    ensures !ok ==> GaveUp(w.trace) && Over(w.rebasing, w.trace) && WentWrong(w.trace)
  {
    hide Sound, Calm, Continues, Ready, Placed, Escalates;
    ghost var start := w.trace;
    notes := notes0;
    ok := ResolveFiles(w, cfg, files);
    if !ok {
      SomethingHappened(start, w.trace);
      StillWentWrong(start, w.trace);
      return;
    }
    var relisted: bool := *;
    notes := notes.(relisted := relisted, copies := w.files);
    if relisted {
      ghost var staged := w.staged;
      ok := StageFiles(w, cfg, files);
      forall f | f in files ensures ok ==> Placed(f, w.files, w.staged) {
        if f !in w.conflicted {
          StaysPlaced(f, w.files, staged, w.files, w.staged);
        }
      }
      if !ok {
        ghost var mid := w.trace;
        GiveUp(w, cfg);
        AddUnasked(cfg, |files| > 3, start, mid, w.trace);
        StillWentWrong(start, w.trace);
      }
    }
  }

  lemma SomethingHappened(start: seq<Ev>, trace: seq<Ev>)
    requires start <= trace && EndsIn(start, Listed(true)) && GaveUp(trace)
    ensures |start| < |trace|
  {
  }

  /** One round. Where git lists what is left, the rebase goes on only with every conflicted file gone
      or staged as it was resolved. */
  method Round(w: Worktree, cfg: Config) returns (end: RoundEnd, notes: Notes)
    requires w.Valid() && w.rebasing && Sound(cfg, w.staged, w.trace) && Calm(cfg, w.trace)
    modifies w
    ensures w.Valid() && Sound(cfg, w.staged, w.trace) && old(w.trace) <= w.trace
    ensures Escalates(cfg, |old(w.conflicted)| > 3, w.trace[|old(w.trace)|..])
    ensures notes.continued && notes.relisted ==> forall f :: f in old(w.conflicted) ==> Placed(f, notes.copies, w.staged)
    ensures Continues(w.trace) == Continues(old(w.trace)) + if notes.continued then 1 else 0
    ensures notes.listed && old(w.conflicted) == [] ==> notes.continued
    ensures end != Failed ==> notes.continued && Calm(cfg, w.trace)
                              && EndsIn(w.trace, Continued(if end == Finished then Done else Conflicts))
                              && (w.rebasing <==> end == Again)
    ensures end == Failed ==> GaveUp(w.trace) && Over(w.rebasing, w.trace) && WentWrong(w.trace)
  {
    hide Sound, Calm, Continues, Ready, Placed, Escalates, Extends, AsksLead, EndsIn;
    ghost var start, wide := w.trace, |w.conflicted| > 3;
    var listed := ListConflicts(w, cfg);
    notes := Notes(listed, true, false, w.files);
    ghost var begun := w.trace;
    UnaskedSince(cfg, wide, start, begun);
    if !listed {
      GiveUp(w, cfg);
      StillExtends(begun, w.trace);
      AddUnasked(cfg, wide, start, begun, w.trace);
      end := Failed;
      return;
    }
    var files, ok := w.conflicted, true;
    if |files| > 0 {
      ok, notes := ResolveAndStage(w, cfg, files, notes);
      StillExtends(begun, w.trace);
      AddSteps(cfg, wide, start, begun, w.trace);
    }
    if !ok {
      end := Failed;
      return;
    }
    ghost var mid := w.trace;
    end := ContinueOnce(w, cfg);
    notes := notes.(continued := true);
    AddUnasked(cfg, wide, start, mid, w.trace);
  }

  method ListConflicts(w: Worktree, ghost cfg: Config) returns (listed: bool)
    requires w.Valid() && w.rebasing && Sound(cfg, w.staged, w.trace) && Calm(cfg, w.trace)
    modifies w`trace
    ensures w.Valid() && Sound(cfg, w.staged, w.trace) && Calm(cfg, w.trace)
    ensures w.trace == old(w.trace) + [Listed(listed)] && Continues(w.trace) == Continues(old(w.trace))
    ensures EndsIn(w.trace, Listed(listed))
  {
    hide Sound, Calm, Continues;
    listed := *;
    Happens(w, cfg, Listed(listed));
    ContinuesAppend(w.trace, Listed(listed));
    w.trace := w.trace + [Listed(listed)];
  }

  lemma StillExtends(before: seq<Ev>, after: seq<Ev>)
    requires Extends(before, after)
    ensures before <= after && Continues(after) == Continues(before)
  {
  }

  lemma UnaskedSince(cfg: Config, wide: bool, start: seq<Ev>, trace: seq<Ev>)
    requires start <= trace && forall i :: |start| <= i < |trace| ==> !trace[i].Asked?
    ensures Escalates(cfg, wide, trace[|start|..])
  {
    UnaskedEscalates(cfg, wide, trace[|start|..]);
  }

  lemma AddSteps(cfg: Config, wide: bool, start: seq<Ev>, mid: seq<Ev>, trace: seq<Ev>)
    requires start <= mid <= trace && Escalates(cfg, wide, mid[|start|..]) && Escalates(cfg, wide, trace[|mid|..])
    ensures Escalates(cfg, wide, trace[|start|..])
  {
    hide Escalates;
    EscalatesJoin(cfg, wide, mid[|start|..], trace[|mid|..]);
    assert mid == start + mid[|start|..] && trace == mid + trace[|mid|..];
    assert trace[|start|..] == mid[|start|..] + trace[|mid|..];
  }

  lemma AddUnasked(cfg: Config, wide: bool, start: seq<Ev>, mid: seq<Ev>, trace: seq<Ev>)
    requires start <= mid <= trace && Escalates(cfg, wide, mid[|start|..])
    requires forall i :: |mid| <= i < |trace| ==> !trace[i].Asked?
    ensures Escalates(cfg, wide, trace[|start|..])
  {
    hide Escalates;
    UnaskedSince(cfg, wide, mid, trace);
    AddSteps(cfg, wide, start, mid, trace);
  }

  /** The tech-lead policy holds in every round: rounds begin where git is asked for the conflicts, and a
      round is wide if it listed more than three files. */
  ghost predicate PolicyKept(cfg: Config, trace: seq<Ev>) {
    forall i :: 0 <= i < |trace| ==> PolicyAt(cfg, trace, i)
  }

  /** A senior without merged text is followed by the tech lead, if there is one, and the tech lead
      follows nothing but the senior on the same file. */
  ghost predicate PolicyAt(cfg: Config, trace: seq<Ev>, i: nat)
    requires i < |trace|
  {
    && (trace[i].Asked? && trace[i].role.Senior? && !trace[i].outcome.Resolved? && cfg.techLead ==>
          i + 1 < |trace| && AsksLead(trace[i + 1]))
    && (AsksLead(trace[i]) ==>
          cfg.techLead && i > 0 && trace[i - 1].Asked? && trace[i - 1].role.Senior? && trace[i - 1].file == trace[i].file)
  }

  lemma PolicyGrows(cfg: Config, wide: bool, trace: seq<Ev>, added: seq<Ev>)
    requires PolicyKept(cfg, trace) && Escalates(cfg, wide, added)
    ensures PolicyKept(cfg, trace + added)
  {
    var longer := trace + added;
    forall i | 0 <= i < |longer| ensures PolicyAt(cfg, longer, i) {
      if i < |trace| {
        assert PolicyAt(cfg, trace, i);
      } else {
        assert EscalatesAt(cfg, wide, added, i - |trace|);
        if i > |trace| {
          assert EscalatesAt(cfg, wide, added, i - |trace| - 1);
        }
      }
    }
  }

  /** Succeeds with no conflict at all or right after a continued rebase, has then left the rebase, and
      no model has let it down; every other exit has just told git to abort, and is in the middle of a
      rebase only if git did not obey. It gives up on the number of rounds only after maxRounds. */
  method RebaseWithResolution(w: Worktree, cfg: Config) returns (ok: bool)
    requires w.Valid() && !w.rebasing && w.staged == [] && w.trace == []
    modifies w
    ensures Over(w.rebasing, w.trace)
    ensures Continues(w.trace) <= if cfg.maxRounds > 0 then cfg.maxRounds else 0
    ensures AllSanctioned(cfg, w.staged, w.trace) && FallbackDiscipline(w.trace) && ModelsSpared(w.trace)
    ensures OutagesEndIt(cfg, w.trace) && PolicyKept(cfg, w.trace)
    ensures ok ==> !w.rebasing && (w.trace == [] || EndsIn(w.trace, Continued(Done))) && Calm(cfg, w.trace)
    ensures !ok ==> GaveUp(w.trace)
                    && (|w.trace| < 2 || WentWrong(w.trace)
                        || Continues(w.trace) == if cfg.maxRounds > 0 then cfg.maxRounds else 0)
  {
    hide Sanctioned, EndsIn, Escalates, PolicyKept, IsOutage, Placed;
    var started := w.Start();
    NoPolicy(cfg, w.trace);
    if started != Conflicts {
      return started == Done;
    }
    var round := 0;
    while round < cfg.maxRounds
      invariant 0 <= round && (round <= cfg.maxRounds || round == 0)
      invariant w.Valid() && w.rebasing && Sound(cfg, w.staged, w.trace) && Calm(cfg, w.trace)
      invariant Continues(w.trace) == round && PolicyKept(cfg, w.trace)
    {
      ghost var trace, wide := w.trace, |w.conflicted| > 3;
      var end, notes := Round(w, cfg);
      PolicyGrows(cfg, wide, trace, w.trace[|trace|..]);
      assert w.trace == trace + w.trace[|trace|..];
      round := round + 1;
      match end
      case Finished => return true;
      case Failed => return false;
      case Again =>
    }
    ghost var trace := w.trace;
    GiveUp(w, cfg);
    NoPolicyNeeded(cfg, trace, w.trace);
    ok := false;
  }

  lemma NoPolicy(cfg: Config, trace: seq<Ev>)
    requires forall i :: 0 <= i < |trace| ==> !trace[i].Asked?
    ensures PolicyKept(cfg, trace)
  {
  }

  lemma NoPolicyNeeded(cfg: Config, trace: seq<Ev>, longer: seq<Ev>)
    requires PolicyKept(cfg, trace) && OneMore(trace, longer) && !longer[|trace|].Asked?
    ensures PolicyKept(cfg, longer)
  {
    forall i | 0 <= i < |longer| ensures PolicyAt(cfg, longer, i) {
      if i < |trace| {
        assert PolicyAt(cfg, trace, i);
      }
    }
  }
}
