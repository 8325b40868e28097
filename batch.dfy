/**
 * main.go's driver: mediaTool's loop over the images of a walk, the
 * confirmation prompt, processFiles and processOneFile. The filesystem is
 * the set of paths that exist plus two failure oracles, stdin is a script
 * of lines, and the transfers performed and the errors logged are recorded
 * in order.
 */
module Batch {
  import opened Wrappers
  import opened Text
  import opened Calendar
  import opened Settings
  import opened Resolver
  import opened Conflict
  import opened Classify
  import opened Paths

  // ---------------------------------------------------------------------
  // askForConfirmation

  /** A line of input as askForConfirmation compares it: trimmed of white space, in lower case. */
  function Normalized(line: string): string { ToLower(TrimSpace(line)) }

  /** What a normalized response means: yes, no, or neither. */
  function Answer(response: string): Option<bool>
  {
    if response == "y" || response == "yes" then Some(true)
    else if response == "n" || response == "no" then Some(false)
    else None
  }

  /** The answer one line of input gives. */
  function Reply(line: string): (r: Option<bool>)
    ensures r.Some? <==> Normalized(line) in {"y", "yes", "n", "no"}
    ensures r.Some? ==> (r.value <==> Normalized(line) in {"y", "yes"})
  {
    Answer(Normalized(line))
  }

  /** Surrounding white space, the newline included, does not change the reply. */
  lemma ReplyIgnoresSpace(lead: string, word: string, trail: string)
    requires forall k :: 0 <= k < |lead| ==> IsSpace(lead[k])
    requires forall k :: 0 <= k < |trail| ==> IsSpace(trail[k])
    requires word != [] && !IsSpace(word[0]) && !IsSpace(word[|word| - 1])
    ensures Reply(lead + word + trail) == Reply(word)
  {
    TrimPadded(lead, word, trail, IsSpace);
    TrimmedAlready(word, IsSpace);
    assert Normalized(lead + word + trail) == Normalized(word);
  }

  /** A word with no white space at its ends is compared in lower case. */
  lemma NormalizedWord(word: string, lower: string)
    requires word != [] && !IsSpace(word[0]) && !IsSpace(word[|word| - 1])
    requires |lower| == |word| && forall k :: 0 <= k < |word| ==> LowerChar(word[k]) == lower[k]
    ensures Reply(word) == Answer(lower)
  {
    TrimmedAlready(word, IsSpace);
    assert ToLower(word) == lower;
  }

  /** "y" and "yes" are a yes, "n" and "no" a no, and every other response neither. */
  lemma AnswerWords(response: string)
    ensures Answer(response) == Some(true) <==> response == "y" || response == "yes"
    ensures Answer(response) == Some(false) <==> response == "n" || response == "no"
    ensures Answer(response).None? <==> response !in {"y", "yes", "n", "no"}
  {
  }

  /**
   * A word with no white space at its ends is a yes exactly when it is "y"
   * or "yes" in any mix of cases, a no exactly when it is "n" or "no", and
   * neither otherwise.
   */
  lemma ReplyOf(word: string)
    requires word != [] && !IsSpace(word[0]) && !IsSpace(word[|word| - 1])
    ensures Reply(word) == Some(true) <==> ToLower(word) == "y" || ToLower(word) == "yes"
    ensures Reply(word) == Some(false) <==> ToLower(word) == "n" || ToLower(word) == "no"
    ensures Reply(word).None? <==> ToLower(word) !in {"y", "yes", "n", "no"}
  {
    TrimmedAlready(word, IsSpace);
    AnswerWords(ToLower(word));
  }

  /** For example, "YES" and "y" are a yes. */
  lemma ReplyYes()
    ensures Reply("YES") == Some(true) && Reply("y") == Some(true)
  {
    AnswerWords("yes");
    AnswerWords("y");
    NormalizedWord("YES", "yes");
    NormalizedWord("y", "y");
  }

  /** For example, "No" and "N" are a no. */
  lemma ReplyNo()
    ensures Reply("No") == Some(false) && Reply("N") == Some(false)
  {
    AnswerWords("no");
    AnswerWords("n");
    NormalizedWord("No", "no");
    NormalizedWord("N", "n");
  }

  /** For example, "q" is neither, and the prompt is repeated. */
  lemma ReplyNeither()
    ensures Reply("q") == None
  {
    AnswerWords("q");
    NormalizedWord("q", "q");
  }

  /** None of the first n lines is a yes or a no. */
  predicate NoReplyBefore(lines: seq<string>, n: nat)
    requires n <= |lines|
  {
    forall k :: 0 <= k < n ==> Reply(lines[k]).None?
  }

  /** The reply of each line of input. */
  function Replies(lines: seq<string>): (r: seq<Option<bool>>)
    ensures |r| == |lines| && forall k :: 0 <= k < |lines| ==> r[k] == Reply(lines[k])
  {
    seq(|lines|, k requires 0 <= k < |lines| => Reply(lines[k]))
  }

  /**
   * askForConfirmation reading replies from index i on: the first that is
   * a yes or a no, with the index just past it; None with the length when
   * no remaining reply is one.
   */
  function FirstAnswer(replies: seq<Option<bool>>, i: nat): (r: (Option<bool>, nat))
    requires i <= |replies|
    ensures i <= r.1 <= |replies|
    ensures forall k :: i <= k < r.1 - 1 ==> replies[k].None?
    ensures r.0.Some? ==> i < r.1 && replies[r.1 - 1] == r.0
    ensures r.0.None? ==> r.1 == |replies| && forall k :: i <= k < |replies| ==> replies[k].None?
    decreases |replies| - i
  {
    if i == |replies| then (None, i)
    else if replies[i].Some? then (replies[i], i + 1)
    else FirstAnswer(replies, i + 1)
  }

  /**
   * askForConfirmation over the lines stdin has yet to deliver: the answer
   * and the number of lines it reads. None means the input ran out first,
   * where main.go stops the program through log.Fatal.
   */
  function Ask(lines: seq<string>): (r: (Option<bool>, nat))
    ensures r.1 <= |lines|
    ensures r.0.None? ==> r.1 == |lines|
  {
    FirstAnswer(Replies(lines), 0)
  }

  /**
   * The answer is that of the first line that is a yes or a no, and reading
   * stops just past it; None only when no line is one.
   */
  lemma AskMeans(lines: seq<string>)
    ensures var r := Ask(lines);
      && (r.0.Some? ==> 1 <= r.1 && NoReplyBefore(lines, r.1 - 1) && Reply(lines[r.1 - 1]) == r.0)
      && (r.0.None? ==> NoReplyBefore(lines, |lines|))
  {
    var replies := Replies(lines);
    var r := FirstAnswer(replies, 0);
    var m := if r.0.Some? then r.1 - 1 else r.1;
    forall k | 0 <= k < m
      ensures Reply(lines[k]).None?
    {
      assert replies[k].None?;
    }
    if r.0.Some? {
      assert replies[r.1 - 1] == r.0;
    }
  }

  /** The first reply that is a yes or a no decides, and the search stops just past it. */
  lemma {:induction false} FirstAnswerAt(replies: seq<Option<bool>>, i: nat, used: nat)
    requires i < used <= |replies| && replies[used - 1].Some?
    requires forall k :: i <= k < used - 1 ==> replies[k].None?
    ensures FirstAnswer(replies, i) == (replies[used - 1], used)
    decreases used - i
  {
    if i < used - 1 {
      FirstAnswerAt(replies, i + 1, used);
    }
  }

  /** The answer is that of the first line that is a yes or a no, and reading stops just past it. */
  lemma AskFirst(lines: seq<string>, used: nat)
    requires 1 <= used <= |lines| && NoReplyBefore(lines, used - 1) && Reply(lines[used - 1]).Some?
    ensures Ask(lines) == (Reply(lines[used - 1]), used)
  {
    FirstAnswerAt(Replies(lines), 0, used);
  }

  /** askForConfirmation as a loop over the scripted input. */
  method AskForConfirmation(lines: seq<string>) returns (answer: Option<bool>, used: nat)
    ensures used <= |lines|
    ensures answer.Some? ==> 1 <= used && NoReplyBefore(lines, used - 1) && Reply(lines[used - 1]) == answer
    ensures answer.None? ==> used == |lines| && NoReplyBefore(lines, |lines|)
    ensures (answer, used) == Ask(lines)
  {
    used := 0;
    while used < |lines|
      invariant used <= |lines| && NoReplyBefore(lines, used)
      invariant FirstAnswer(Replies(lines), used) == Ask(lines)
    {
      var reply := Reply(lines[used]);
      used := used + 1;
      if reply.Some? {
        return reply, used;
      }
    }
    return None, used;
  }

  // ---------------------------------------------------------------------
  // The environment of one run

  /**
   * What a run depends on besides the walk and the disk: the flags,
   * processImage as a function of the file, the clock reading, and which
   * directory creations and transfers the operating system refuses.
   */
  datatype Setup = Setup(
    cfg: Config,
    resolve: string -> Result<string, ResolveError>,
    now: DateTime,
    mkdirFails: string -> bool,
    transferFails: (string, string) -> bool)

  predicate SetupOk(setup: Setup) { ValidDateTime(setup.now) }

  /** The order matchRegex visits regexTime in for this file. */
  function RegexOrder(compactFirst: string -> bool, file: string): (order: seq<TimePattern>)
    ensures IsMapOrder(order)
  {
    if compactFirst(file) then TimePatterns else [DashedPattern, CompactPattern]
  }

  /**
   * processImage for every file, given the EXIF decode of each file, the
   * zone's offset from UTC and the order in which each file meets the
   * regexTime map.
   */
  function ProcessImages(exifOf: string -> Option<ExifTags>, utcOffset: int, compactFirst: string -> bool)
    : (resolve: string -> Result<string, ResolveError>)
    ensures forall file :: resolve(file) == ProcessImage(file, exifOf(file), utcOffset, RegexOrder(compactFirst, file))
  {
    file => ProcessImage(file, exifOf(file), utcOffset, RegexOrder(compactFirst, file))
  }

  /** The setup of a run of main.go: processImage is the resolver. */
  function MakeSetup(cfg: Config, exifOf: string -> Option<ExifTags>, utcOffset: int, compactFirst: string -> bool,
                     now: DateTime, mkdirFails: string -> bool, transferFails: (string, string) -> bool)
    : (setup: Setup)
    ensures setup.cfg == cfg && setup.now == now
    ensures forall file :: setup.resolve(file) == ProcessImage(file, exifOf(file), utcOffset, RegexOrder(compactFirst, file))
  {
    Setup(cfg, ProcessImages(exifOf, utcOffset, compactFirst), now, mkdirFails, transferFails)
  }

  /** processImage on this file. */
  function Resolve(setup: Setup, file: string): Result<string, ResolveError>
  {
    setup.resolve(file)
  }

  /** An error mediaTool or processFiles logs. */
  datatype Failure =
    | Unresolved(file: string)
    | Skipped(file: string)
    | TransferFailed(source: string, dest: string)

  /** The loop body before any transfer: processImage, then checkExist against the disk. */
  function Candidate(setup: Setup, file: string, disk: set<string>): (r: Result<string, Failure>)
    requires SetupOk(setup)
    ensures r.Success? ==> Resolve(setup, file).Success?
    ensures r.Success? && Resolve(setup, file).value != "" ==> r.value != ""
    ensures r == Failure(Unresolved(file)) <==> Resolve(setup, file).Failure?
    ensures r.Failure? ==> r == Failure(Unresolved(file)) || r == Failure(Skipped(file))
  {
    match Resolve(setup, file)
    case Failure(_) => Failure(Unresolved(file))
    case Success(newPath) =>
      match CheckExist(newPath, setup.cfg, disk, setup.now)
      case Failure(_) => Failure(Skipped(file))
      case Success(p) => Success(p)
  }

  /** The candidate of a resolved image is whatever checkExist settles on for its new path, and a skip is logged as one. */
  lemma CandidateChecks(setup: Setup, file: string, disk: set<string>)
    requires SetupOk(setup) && Resolve(setup, file).Success?
    ensures var c := CheckExist(Resolve(setup, file).value, setup.cfg, disk, setup.now);
      var r := Candidate(setup, file, disk);
      && (r.Success? <==> c.Success?)
      && (r.Success? ==> r.value == c.value)
      && (r.Failure? ==> r.error == Skipped(file))
  {
  }

  /**
   * In interactive mode the candidate is what reaches processOneFile: the
   * resolved path itself or its renamed form, never joined with the
   * destination directory.
   */
  lemma CandidateIsRelative(setup: Setup, file: string, disk: set<string>)
    requires SetupOk(setup) && Candidate(setup, file, disk).Success?
    ensures var newPath := Resolve(setup, file).value;
      var p := Candidate(setup, file, disk).value;
      p == newPath || p == GenerateNewFileName(newPath, setup.now)
  {
    var newPath := Resolve(setup, file).value;
    var checked := CheckExist(newPath, setup.cfg, disk, setup.now);
    assert Candidate(setup, file, disk) == Success(checked.value);
  }

  // ---------------------------------------------------------------------
  // Together mode: todoMap

  /** The candidate of every file against one state of the disk. */
  function Candidates(setup: Setup, disk: set<string>): (cand: string -> Result<string, Failure>)
    requires SetupOk(setup)
    ensures forall file :: cand(file) == Candidate(setup, file, disk)
  {
    file => Candidate(setup, file, disk)
  }

  /** todoMap after one image with this candidate result. */
  function Admit(destination: string, todo: map<string, string>, file: string, c: Result<string, Failure>)
    : map<string, string>
  {
    match c
    case Success(p) => todo[file := Join([destination, p])]
    case Failure(_) => todo
  }

  /** The error log after one image with this candidate result. */
  function Log(logged: seq<Failure>, c: Result<string, Failure>): seq<Failure>
  {
    match c
    case Success(_) => logged
    case Failure(f) => logged + [f]
  }

  /** todoMap after the loop over `images`, each image with its candidate result. */
  function Plan(destination: string, images: seq<string>, cand: string -> Result<string, Failure>)
    : (todo: map<string, string>)
    ensures forall file :: file in todo ==> file in images
  {
    if images == [] then map[]
    else
      var file := images[|images| - 1];
      Admit(destination, Plan(destination, images[..|images| - 1], cand), file, cand(file))
  }

  /** The errors logged during that loop, in order. */
  function PlanFailures(images: seq<string>, cand: string -> Result<string, Failure>): (logged: seq<Failure>)
    ensures |logged| <= |images|
  {
    if images == [] then []
    else
      var file := images[|images| - 1];
      Log(PlanFailures(images[..|images| - 1], cand), cand(file))
  }

  /** One more image extends the plan and the log by that image's result. */
  lemma PlanStep(destination: string, images: seq<string>, n: nat, cand: string -> Result<string, Failure>)
    requires n < |images|
    ensures Plan(destination, images[..n + 1], cand)
      == Admit(destination, Plan(destination, images[..n], cand), images[n], cand(images[n]))
    ensures PlanFailures(images[..n + 1], cand) == Log(PlanFailures(images[..n], cand), cand(images[n]))
  {
    assert images[..n + 1][..n] == images[..n];
  }

  /**
   * todoMap holds exactly the images whose candidate succeeds, each mapped
   * to the destination directory joined with its candidate.
   */
  lemma {:induction false} PlanEntries(destination: string, images: seq<string>,
                                       cand: string -> Result<string, Failure>, file: string)
    ensures file in Plan(destination, images, cand) <==> file in images && cand(file).Success?
    ensures file in Plan(destination, images, cand) ==>
      Plan(destination, images, cand)[file] == Join([destination, cand(file).value])
    decreases |images|
  {
    if images != [] {
      var init := images[..|images| - 1];
      PlanEntries(destination, init, cand, file);
      assert images == init + [images[|images| - 1]];
    }
  }

  /** The log holds exactly the errors of the images whose candidate fails. */
  lemma {:induction false} PlanFailuresLogged(images: seq<string>, cand: string -> Result<string, Failure>, f: Failure)
    ensures f in PlanFailures(images, cand) <==> exists file :: file in images && cand(file) == Failure(f)
    decreases |images|
  {
    if images != [] {
      var init, last := images[..|images| - 1], images[|images| - 1];
      PlanFailuresLogged(init, cand, f);
      assert images == init + [last];
      if exists file :: file in images && cand(file) == Failure(f) {
        var file :| file in images && cand(file) == Failure(f);
        if file != last {
          assert file in init;
        }
      }
    }
  }

  /**
   * In Together mode the errors logged name exactly the images processImage
   * cannot place (unresolved) and those checkExist refuses (skipped).
   */
  lemma TogetherLogs(setup: Setup, images: seq<string>, disk: set<string>, file: string)
    requires SetupOk(setup)
    ensures Unresolved(file) in PlanFailures(images, Candidates(setup, disk)) <==>
      file in images && Resolve(setup, file).Failure?
    ensures Skipped(file) in PlanFailures(images, Candidates(setup, disk)) <==>
      file in images && Candidate(setup, file, disk) == Failure(Skipped(file))
  {
    LoggedFor(setup, images, disk, file, Unresolved(file));
    LoggedFor(setup, images, disk, file, Skipped(file));
  }

  /** An error naming `file` is logged exactly when `file` is an image whose candidate is that error. */
  lemma LoggedFor(setup: Setup, images: seq<string>, disk: set<string>, file: string, f: Failure)
    requires SetupOk(setup)
    requires f == Unresolved(file) || f == Skipped(file)
    ensures f in PlanFailures(images, Candidates(setup, disk)) <==>
      file in images && Candidate(setup, file, disk) == Failure(f)
  {
    var cand := Candidates(setup, disk);
    PlanFailuresLogged(images, cand, f);
    if f in PlanFailures(images, cand) {
      var other :| other in images && cand(other) == Failure(f);
      assert Candidate(setup, other, disk) == Failure(f);
      assert other == file;
    }
    if file in images && Candidate(setup, file, disk) == Failure(f) {
      assert cand(file) == Failure(f);
    }
  }

  /** With a destination directory, every todoMap target lies under it. */
  lemma PlanUnderDestination(destination: string, images: seq<string>,
                             cand: string -> Result<string, Failure>, file: string)
    requires destination != "" && file in Plan(destination, images, cand)
    requires cand(file).Success? ==> cand(file).value != ""
    ensures var d := Plan(destination, images, cand)[file];
      var root := destination + "/";
      |root| < |d| && d[..|root|] == root
  {
    PlanEntries(destination, images, cand, file);
    JoinTwo(destination, cand(file).value);
  }


  // ---------------------------------------------------------------------
  // processOneFile

  datatype TransferKind = Copy | Move

  /** One copyFile or moveFile that succeeded. */
  datatype Transfer = Transfer(kind: TransferKind, source: string, dest: string)

  /** The switch on c.Mode: "copy" and "move" transfer; any other mode does nothing. */
  function ModeOf(mode: string): (k: Option<TransferKind>)
    ensures k == Some(Copy) <==> mode == "copy"
    ensures k == Some(Move) <==> mode == "move"
  {
    if mode == "copy" then Some(Copy) else if mode == "move" then Some(Move) else None
  }

  /** The paths that exist after a transfer: its destination is added, and a move removes its source. */
  function After(disk: set<string>, t: Transfer): (r: set<string>)
    ensures forall p :: p in r <==> p == t.dest || (p in disk && !(t.kind == Move && p == t.source))
  {
    match t.kind
    case Copy => disk + {t.dest}
    case Move => disk - {t.source} + {t.dest}
  }

  /** The paths that exist after a sequence of transfers, made in order. */
  function AfterAll(disk: set<string>, made: seq<Transfer>): set<string>
    decreases |made|
  {
    if made == [] then disk else After(AfterAll(disk, made[..|made| - 1]), made[|made| - 1])
  }

  lemma AfterAllStep(disk: set<string>, made: seq<Transfer>, more: seq<Transfer>)
    requires |more| <= 1
    ensures AfterAll(disk, made + more) == if more == [] then AfterAll(disk, made) else After(AfterAll(disk, made), more[0])
  {
    if more == [] {
      assert made + more == made;
    } else {
      assert (made + more)[..|made|] == made;
    }
  }

  /** A path no transfer moves away stays: copies only add, and a move removes its own source alone. */
  lemma {:induction false} UntouchedStays(disk: set<string>, made: seq<Transfer>, p: string)
    requires p in disk
    requires forall k :: 0 <= k < |made| ==> !(made[k].kind == Move && made[k].source == p)
    ensures p in AfterAll(disk, made)
    decreases |made|
  {
    if made != [] {
      UntouchedStays(disk, made[..|made| - 1], p);
    }
  }

  /** Nothing appears on the disk but the destinations of the transfers. */
  lemma {:induction false} OnlyDestinationsAppear(disk: set<string>, made: seq<Transfer>, p: string)
    requires p in AfterAll(disk, made) && p !in disk
    ensures exists k :: 0 <= k < |made| && made[k].dest == p
    decreases |made|
  {
    var init := made[..|made| - 1];
    if p == made[|made| - 1].dest {
      assert made[|made| - 1].dest == p;
    } else {
      OnlyDestinationsAppear(disk, init, p);
      var k :| 0 <= k < |init| && init[k].dest == p;
      assert made[k].dest == p;
    }
  }

  /**
   * Whether processOneFile(source, dest) succeeds on this disk: the parent
   * directory of dest can be made, and a copy or a move finds its source
   * and is accepted by the system.
   */
  predicate OneFileOk(setup: Setup, disk: set<string>, source: string, dest: string)
  {
    && !setup.mkdirFails(dest)
    && (ModeOf(setup.cfg.mode).Some? ==> source in disk && !setup.transferFails(source, dest))
  }

  /** What mediaTool changes as it goes: the paths that exist, the unread lines of stdin, the transfers made and the errors logged. */
  datatype Progress = Progress(disk: set<string>, input: seq<string>, transfers: seq<Transfer>, failures: seq<Failure>)

  /**
   * processOneFile(source, dest) with its error logged, as both processFiles
   * and mediaTool's loop do it: a failure is logged and changes nothing
   * else; a success in copy or move mode makes the transfer.
   */
  function Entry(setup: Setup, w: Progress, source: string, dest: string): (r: Progress)
    ensures r.input == w.input
    ensures r.failures == w.failures <==> OneFileOk(setup, w.disk, source, dest)
    ensures r.transfers == w.transfers <==> !OneFileOk(setup, w.disk, source, dest) || ModeOf(setup.cfg.mode).None?
  {
    if !OneFileOk(setup, w.disk, source, dest) then w.(failures := w.failures + [TransferFailed(source, dest)])
    else
      match ModeOf(setup.cfg.mode)
      case None => w
      case Some(kind) =>
        var t := Transfer(kind, source, dest);
        w.(disk := After(w.disk, t), transfers := w.transfers + [t])
  }

  // ---------------------------------------------------------------------
  // processFiles

  /**
   * What processFiles has achieved once the keys in `done` are processed:
   * each transfer made and each failure logged belongs to a distinct
   * processed entry, no entry is both, and each processed entry was
   * transferred or logged (or the mode transfers nothing).
   */
  ghost predicate Handled(setup: Setup, m: map<string, string>, done: set<string>, made: seq<Transfer>, logged: seq<Failure>)
  {
    && done <= m.Keys
    && (forall t :: t in made ==> t.source in done && t.dest == m[t.source] && ModeOf(setup.cfg.mode) == Some(t.kind))
    && (forall j, k :: 0 <= j < k < |made| ==> made[j].source != made[k].source)
    && (forall f :: f in logged ==> f.TransferFailed? && f.source in done && f.dest == m[f.source])
    && (forall j, k :: 0 <= j < k < |logged| ==> logged[j].source != logged[k].source)
    && (forall t :: t in made ==> TransferFailed(t.source, t.dest) !in logged)
    && (forall s :: s in done ==>
          || TransferFailed(s, m[s]) in logged
          || (exists t :: t in made && t.source == s)
          || ModeOf(setup.cfg.mode).None?)
  }

  /**
   * Which way each processed entry went, measured against the disk before
   * processFiles: an entry whose directory cannot be made, or whose copy or
   * move the system refuses, is logged, and an entry that would succeed on
   * that disk is transferred and not logged.
   */
  ghost predicate Fates(setup: Setup, m: map<string, string>, disk0: set<string>, done: set<string>,
                        made: seq<Transfer>, logged: seq<Failure>)
    requires done <= m.Keys
  {
    && (forall s :: s in done && setup.mkdirFails(m[s]) ==> TransferFailed(s, m[s]) in logged)
    && (forall s :: s in done && ModeOf(setup.cfg.mode).Some? && setup.transferFails(s, m[s]) ==> TransferFailed(s, m[s]) in logged)
    && (forall s :: s in done && OneFileOk(setup, disk0, s, m[s]) ==>
          && TransferFailed(s, m[s]) !in logged
          && (ModeOf(setup.cfg.mode).Some? ==> exists t :: t in made && t.source == s))
  }

  /** Every transfer found its source on the disk as the earlier transfers had left it. */
  ghost predicate SourcesFound(disk0: set<string>, made: seq<Transfer>)
  {
    forall k :: 0 <= k < |made| ==> made[k].source in AfterAll(disk0, made[..k])
  }

  /** The transfer one processFiles entry adds. */
  function Made(setup: Setup, ok: bool, source: string, dest: string): seq<Transfer>
  {
    if ok && ModeOf(setup.cfg.mode).Some? then [Transfer(ModeOf(setup.cfg.mode).value, source, dest)] else []
  }

  /** The error one processFiles entry logs. */
  function Logged(ok: bool, source: string, dest: string): seq<Failure>
  {
    if ok then [] else [TransferFailed(source, dest)]
  }

  /** Entry in terms of the transfer it makes and the error it logs. */
  lemma EntryParts(setup: Setup, w: Progress, source: string, dest: string)
    ensures var ok := OneFileOk(setup, w.disk, source, dest);
      var r, made := Entry(setup, w, source, dest), Made(setup, ok, source, dest);
      && r.input == w.input
      && r.transfers == w.transfers + made
      && r.failures == w.failures + Logged(ok, source, dest)
      && r.disk == (if made == [] then w.disk else After(w.disk, made[0]))
  {
  }

  /** Processing one more entry keeps Handled, whether it was transferred or logged. */
  lemma HandledStep(setup: Setup, m: map<string, string>, done: set<string>, made: seq<Transfer>, logged: seq<Failure>,
                    s: string, ok: bool)
    requires Handled(setup, m, done, made, logged) && s in m && s !in done
    ensures Handled(setup, m, done + {s}, made + Made(setup, ok, s, m[s]), logged + Logged(ok, s, m[s]))
  {
    if ok && ModeOf(setup.cfg.mode).Some? {
      HandledTransferred(setup, m, done, made, logged, s);
      assert logged + Logged(ok, s, m[s]) == logged;
    } else if ok {
      assert made + Made(setup, ok, s, m[s]) == made && logged + Logged(ok, s, m[s]) == logged;
    } else {
      HandledLogged(setup, m, done, made, logged, s);
      assert made + Made(setup, ok, s, m[s]) == made;
    }
  }

  /** An entry transferred keeps Handled. */
  lemma HandledTransferred(setup: Setup, m: map<string, string>, done: set<string>, made: seq<Transfer>, logged: seq<Failure>, s: string)
    requires Handled(setup, m, done, made, logged) && s in m && s !in done && ModeOf(setup.cfg.mode).Some?
    ensures Handled(setup, m, done + {s}, made + [Transfer(ModeOf(setup.cfg.mode).value, s, m[s])], logged)
  {
    var t := Transfer(ModeOf(setup.cfg.mode).value, s, m[s]);
    var made' := made + [t];
    assert made'[|made|] == t;
    forall j, k | 0 <= j < k < |made'|
      ensures made'[j].source != made'[k].source
    {
      if k == |made| {
        assert made[j] in made;
      }
    }
    assert TransferFailed(s, m[s]) !in logged;
  }

  /** An entry logged keeps Handled. */
  lemma HandledLogged(setup: Setup, m: map<string, string>, done: set<string>, made: seq<Transfer>, logged: seq<Failure>, s: string)
    requires Handled(setup, m, done, made, logged) && s in m && s !in done
    ensures Handled(setup, m, done + {s}, made, logged + [TransferFailed(s, m[s])])
  {
    var f := TransferFailed(s, m[s]);
    var logged' := logged + [f];
    assert logged'[|logged|] == f;
    forall j, k | 0 <= j < k < |logged'|
      ensures logged'[j].source != logged'[k].source
    {
      if k == |logged| {
        assert logged[j] in logged;
      }
    }
    forall t | t in made
      ensures TransferFailed(t.source, t.dest) !in logged'
    {
      assert t.source in done;
    }
  }

  /**
   * Processing one more entry keeps Fates: its source is still on the disk
   * when it was there before processFiles, since no earlier entry moved it.
   */
  lemma FatesStep(setup: Setup, m: map<string, string>, disk0: set<string>, done: set<string>,
                  made: seq<Transfer>, logged: seq<Failure>, s: string, ok: bool)
    requires Handled(setup, m, done, made, logged) && Fates(setup, m, disk0, done, made, logged)
    requires s in m && s !in done
    requires ok == OneFileOk(setup, AfterAll(disk0, made), s, m[s])
    ensures done + {s} <= m.Keys
    ensures Fates(setup, m, disk0, done + {s}, made + Made(setup, ok, s, m[s]), logged + Logged(ok, s, m[s]))
  {
    var made', logged' := made + Made(setup, ok, s, m[s]), logged + Logged(ok, s, m[s]);
    if OneFileOk(setup, disk0, s, m[s]) && ModeOf(setup.cfg.mode).Some? {
      forall k | 0 <= k < |made|
        ensures made[k].source != s
      {
        assert made[k] in made;
      }
      UntouchedStays(disk0, made, s);
      assert ok;
      assert made'[|made|].source == s;
      assert made'[|made|] in made';
    }
    forall s' | s' in done && OneFileOk(setup, disk0, s', m[s']) && ModeOf(setup.cfg.mode).Some?
      ensures exists t :: t in made' && t.source == s'
    {
      var t :| t in made && t.source == s';
      assert t in made';
    }
    forall s' | s' in done
      ensures TransferFailed(s', m[s']) in logged ==> TransferFailed(s', m[s']) in logged'
      ensures TransferFailed(s', m[s']) !in logged ==> TransferFailed(s', m[s']) !in logged'
    {
      assert s' != s;
    }
  }

  /** A transfer made from a source that is on the disk keeps every transfer's source found. */
  lemma SourcesFoundStep(disk0: set<string>, made: seq<Transfer>, more: seq<Transfer>)
    requires SourcesFound(disk0, made)
    requires |more| <= 1 && (more != [] ==> more[0].source in AfterAll(disk0, made))
    ensures SourcesFound(disk0, made + more)
  {
    var made' := made + more;
    forall k | 0 <= k < |made'|
      ensures made'[k].source in AfterAll(disk0, made'[..k])
    {
      if k < |made| {
        assert made'[..k] == made[..k];
      } else {
        assert made'[..k] == made;
      }
    }
  }

  /**
   * processFiles part way, from w0 to w: the entries in `done` are
   * processed, having made the transfers `made` and logged `logged`.
   */
  ghost predicate Processed(setup: Setup, m: map<string, string>, w0: Progress, done: set<string>,
                            made: seq<Transfer>, logged: seq<Failure>, w: Progress)
  {
    && done <= m.Keys
    && w.input == w0.input
    && w.transfers == w0.transfers + made && w.failures == w0.failures + logged
    && w.disk == AfterAll(w0.disk, made)
    && Handled(setup, m, done, made, logged)
    && Fates(setup, m, w0.disk, done, made, logged)
    && SourcesFound(w0.disk, made)
  }

  /** Nothing is processed at the start. */
  lemma ProcessedNone(setup: Setup, m: map<string, string>, w0: Progress)
    ensures Processed(setup, m, w0, {}, [], [], w0)
  {
    assert w0.transfers + [] == w0.transfers && w0.failures + [] == w0.failures;
  }

  /** One more entry through Entry keeps Processed. */
  lemma ProcessedStep(setup: Setup, m: map<string, string>, w0: Progress, done: set<string>,
                      made: seq<Transfer>, logged: seq<Failure>, w: Progress, s: string)
    requires Processed(setup, m, w0, done, made, logged, w) && s in m && s !in done
    ensures var ok := OneFileOk(setup, w.disk, s, m[s]);
      Processed(setup, m, w0, done + {s}, made + Made(setup, ok, s, m[s]), logged + Logged(ok, s, m[s]),
                Entry(setup, w, s, m[s]))
  {
    var ok := OneFileOk(setup, w.disk, s, m[s]);
    var made', logged' := made + Made(setup, ok, s, m[s]), logged + Logged(ok, s, m[s]);
    var e := Entry(setup, w, s, m[s]);
    EntryParts(setup, w, s, m[s]);
    HandledStep(setup, m, done, made, logged, s, ok);
    FatesStep(setup, m, w0.disk, done, made, logged, s, ok);
    AfterAllStep(w0.disk, made, Made(setup, ok, s, m[s]));
    SourcesFoundStep(w0.disk, made, Made(setup, ok, s, m[s]));
    Reassociate(w0.transfers, made, Made(setup, ok, s, m[s]));
    Reassociate(w0.failures, logged, Logged(ok, s, m[s]));
  }

  lemma PrefixKept<T>(a: seq<T>, b: seq<T>)
    ensures (a + b)[..|a|] == a && a + [] == a
  {
  }

  lemma Reassociate<T>(a: seq<T>, b: seq<T>, c: seq<T>)
    ensures a + b + c == a + (b + c)
  {
  }

  /** Once every key is processed, processFiles is done. */
  lemma ProcessedAll(setup: Setup, m: map<string, string>, w0: Progress, made: seq<Transfer>, logged: seq<Failure>, w: Progress)
    requires Processed(setup, m, w0, m.Keys, made, logged, w)
    ensures FilesProcessed(setup, m, w0, w)
  {
    assert w.transfers[|w0.transfers|..] == made && w.failures[|w0.failures|..] == logged;
  }

  /**
   * What processFiles(m) leaves behind, from w0 to w1: every entry of m went
   * through processOneFile once, in an order the model leaves open, and the
   * disk is the old one after the transfers made, in order.
   */
  ghost predicate FilesProcessed(setup: Setup, m: map<string, string>, w0: Progress, w1: Progress)
  {
    && w1.input == w0.input
    && |w0.transfers| <= |w1.transfers| && w1.transfers[..|w0.transfers|] == w0.transfers
    && |w0.failures| <= |w1.failures| && w1.failures[..|w0.failures|] == w0.failures
    && var made, logged := w1.transfers[|w0.transfers|..], w1.failures[|w0.failures|..];
    && Handled(setup, m, m.Keys, made, logged)
    && Fates(setup, m, w0.disk, m.Keys, made, logged)
    && SourcesFound(w0.disk, made)
    && w1.disk == AfterAll(w0.disk, made)
  }

  /**
   * The fate of one entry of processFiles: when its directory cannot be made
   * or the system refuses its copy or move, it is logged and not
   * transferred; when it would succeed on the disk processFiles started
   * from, it is not logged and, in copy or move mode, transferred to its
   * destination.
   */
  lemma KeyFate(setup: Setup, m: map<string, string>, w0: Progress, w1: Progress, s: string)
    requires FilesProcessed(setup, m, w0, w1) && s in m
    ensures var made, logged := w1.transfers[|w0.transfers|..], w1.failures[|w0.failures|..];
      && (setup.mkdirFails(m[s]) || (ModeOf(setup.cfg.mode).Some? && setup.transferFails(s, m[s])) ==>
            TransferFailed(s, m[s]) in logged && forall t :: t in made ==> t.source != s)
      && (OneFileOk(setup, w0.disk, s, m[s]) ==>
            && TransferFailed(s, m[s]) !in logged
            && (ModeOf(setup.cfg.mode).Some? ==> exists t :: t in made && t.source == s && t.dest == m[s]))
  {
    var made, logged := w1.transfers[|w0.transfers|..], w1.failures[|w0.failures|..];
    forall t | t in made && TransferFailed(s, m[s]) in logged
      ensures t.source != s
    {
      assert TransferFailed(t.source, t.dest) !in logged;
    }
  }

  /**
   * An entry whose source is not on the disk processFiles started from, and
   * is not the destination of any entry, is never transferred: in copy or
   * move mode its error is logged, whatever order the entries are visited in.
   */
  lemma MissingSourceLogged(setup: Setup, m: map<string, string>, w0: Progress, w1: Progress, s: string)
    requires FilesProcessed(setup, m, w0, w1) && s in m && ModeOf(setup.cfg.mode).Some?
    requires s !in w0.disk && forall key :: key in m ==> m[key] != s
    ensures TransferFailed(s, m[s]) in w1.failures[|w0.failures|..]
    ensures forall t :: t in w1.transfers[|w0.transfers|..] ==> t.source != s
  {
    var made := w1.transfers[|w0.transfers|..];
    forall k | 0 <= k < |made|
      ensures made[k].source != s
    {
      if made[k].source !in w0.disk {
        SourceIsDestination(w0.disk, made, k);
        var j :| 0 <= j < k && made[j].dest == made[k].source;
        assert made[j] in made;
      }
    }
  }

  /** A transfer whose source was not on the starting disk takes it from an earlier transfer's destination. */
  lemma SourceIsDestination(disk0: set<string>, made: seq<Transfer>, k: nat)
    requires SourcesFound(disk0, made) && k < |made| && made[k].source !in disk0
    ensures exists j :: 0 <= j < k && made[j].dest == made[k].source
  {
    OnlyDestinationsAppear(disk0, made[..k], made[k].source);
    var j :| 0 <= j < k && made[..k][j].dest == made[k].source;
    assert made[j].dest == made[k].source;
  }

  /** In a mode other than copy or move processFiles transfers nothing and leaves the disk alone. */
  lemma ProcessFilesModeNone(setup: Setup, m: map<string, string>, w0: Progress, w1: Progress)
    requires FilesProcessed(setup, m, w0, w1) && ModeOf(setup.cfg.mode).None?
    ensures w1.transfers == w0.transfers && w1.disk == w0.disk
  {
    var made := w1.transfers[|w0.transfers|..];
    assert made == [];
    assert w1.transfers == w1.transfers[..|w0.transfers|] + made;
  }

  /** In copy mode processFiles loses no path, and every destination it copied to exists afterwards. */
  lemma CopyKeepsEverything(setup: Setup, m: map<string, string>, w0: Progress, w1: Progress)
    requires FilesProcessed(setup, m, w0, w1) && setup.cfg.mode == "copy"
    ensures w0.disk <= w1.disk
    ensures forall k :: |w0.transfers| <= k < |w1.transfers| ==> w1.transfers[k].dest in w1.disk
  {
    var made := w1.transfers[|w0.transfers|..];
    forall k | 0 <= k < |made|
      ensures made[k].kind == Copy
    {
      assert made[k] in made;
    }
    CopiesKeep(w0.disk, made);
    forall k | |w0.transfers| <= k < |w1.transfers|
      ensures w1.transfers[k].dest in w1.disk
    {
      assert w1.transfers[k] == made[k - |w0.transfers|];
    }
  }

  lemma {:induction false} CopiesKeep(disk: set<string>, made: seq<Transfer>)
    requires forall k :: 0 <= k < |made| ==> made[k].kind == Copy
    ensures disk <= AfterAll(disk, made)
    ensures forall k :: 0 <= k < |made| ==> made[k].dest in AfterAll(disk, made)
    decreases |made|
  {
    if made != [] {
      CopiesKeep(disk, made[..|made| - 1]);
    }
  }

  // ---------------------------------------------------------------------
  // mediaTool's loop outside Together mode

  /** A transfer mediaTool's loop performs: to the candidate of its source, relative to the working directory. */
  predicate Relative(setup: Setup, t: Transfer)
    requires SetupOk(setup)
  {
    && Resolve(setup, t.source).Success?
    && (t.dest == Resolve(setup, t.source).value
        || t.dest == GenerateNewFileName(Resolve(setup, t.source).value, setup.now))
  }

  /**
   * One pass of mediaTool's loop outside Together mode: a resolution failure
   * or a skip is logged; otherwise, unless yes to all, askForConfirmation
   * reads stdin, and a "no" moves on while stdin running out stops the run
   * (the flag); a confirmed image goes through processOneFile at its
   * candidate path, its error logged.
   */
  function Pass(setup: Setup, w: Progress, file: string): (r: (Progress, bool))
    requires SetupOk(setup)
  {
    match Candidate(setup, file, w.disk)
    case Failure(f) => (w.(failures := w.failures + [f]), false)
    case Success(dest) =>
      if setup.cfg.yes then (Entry(setup, w, file, dest), false)
      else
        var asked := Ask(w.input);
        var rest := w.(input := w.input[asked.1..]);
        if asked.0.None? then (rest, true)
        else if asked.0.value then (Entry(setup, rest, file, dest), false)
        else (rest, false)
  }

  /** mediaTool's loop over images[n..] outside Together mode, up to the end or to where stdin runs out. */
  function PassesFrom(setup: Setup, w: Progress, images: seq<string>, n: nat): (r: (Progress, bool))
    requires SetupOk(setup) && n <= |images|
    decreases |images| - n
  {
    if n == |images| then (w, false)
    else
      var step := Pass(setup, w, images[n]);
      if step.1 then step else PassesFrom(setup, step.0, images, n + 1)
  }

  /** A pass that declines: when the first yes-or-no line is a no, only the input moves on. */
  lemma PassDeclined(setup: Setup, w: Progress, file: string, used: nat)
    requires SetupOk(setup) && !setup.cfg.yes && Candidate(setup, file, w.disk).Success?
    requires 1 <= used <= |w.input| && NoReplyBefore(w.input, used - 1) && Reply(w.input[used - 1]) == Some(false)
    ensures Pass(setup, w, file) == (w.(input := w.input[used..]), false)
  {
    AskFirst(w.input, used);
  }

  /** One pass only extends the records, by at most one transfer. */
  lemma PassExtends(setup: Setup, w: Progress, file: string)
    requires SetupOk(setup)
    ensures var r := Pass(setup, w, file).0;
      && |w.transfers| <= |r.transfers| <= |w.transfers| + 1 && r.transfers[..|w.transfers|] == w.transfers
      && |w.failures| <= |r.failures| && r.failures[..|w.failures|] == w.failures
  {
    PassShape(setup, w, file);
    var c, r := Candidate(setup, file, w.disk), Pass(setup, w, file).0;
    if c.Failure? {
      PrefixKept(w.failures, [c.error]);
    } else {
      var a := Answered(setup, w);
      EntryRecords(setup, a, file, c.value);
      PrefixKept(w.transfers, []);
      PrefixKept(w.failures, []);
    }
  }

  /** The progress a confirmed image is processed from: the input past the answer, unless yes to all. */
  function Answered(setup: Setup, w: Progress): Progress
  {
    if setup.cfg.yes then w else w.(input := w.input[Ask(w.input).1..])
  }

  /**
   * The three ways a pass can end: an unresolved or skipped image is logged;
   * otherwise the input moves past the answer, and the image is processed
   * or not.
   */
  lemma PassShape(setup: Setup, w: Progress, file: string)
    requires SetupOk(setup)
    ensures var c, r := Candidate(setup, file, w.disk), Pass(setup, w, file).0;
      && (c.Failure? ==> r == w.(failures := w.failures + [c.error]))
      && (c.Success? ==> r == Answered(setup, w) || r == Entry(setup, Answered(setup, w), file, c.value))
  {
  }

  /** A pass that changes the transfers processed its image at its candidate. */
  lemma PassEntry(setup: Setup, w: Progress, file: string)
    requires SetupOk(setup)
    ensures var r := Pass(setup, w, file).0;
      r.transfers != w.transfers ==>
        && Candidate(setup, file, w.disk).Success?
        && r == Entry(setup, Answered(setup, w), file, Candidate(setup, file, w.disk).value)
  {
  }

  /** A transfer one pass makes is of its image, to that image's candidate. */
  lemma PassTransfersImage(setup: Setup, w: Progress, file: string)
    requires SetupOk(setup)
    ensures var r := Pass(setup, w, file).0;
      |r.transfers| > |w.transfers| ==>
        && Candidate(setup, file, w.disk).Success?
        && r.transfers[|w.transfers|].source == file
        && r.transfers[|w.transfers|].dest == Candidate(setup, file, w.disk).value
  {
    var r := Pass(setup, w, file).0;
    if |r.transfers| > |w.transfers| {
      PassEntry(setup, w, file);
      EntryRecords(setup, Answered(setup, w), file, Candidate(setup, file, w.disk).value);
    }
  }

  /** A transfer of an image to its candidate goes where processImage, or the renaming after it, says. */
  lemma CandidateRelative(setup: Setup, file: string, disk: set<string>, t: Transfer)
    requires SetupOk(setup) && Candidate(setup, file, disk).Success?
    requires t.source == file && t.dest == Candidate(setup, file, disk).value
    ensures Relative(setup, t)
  {
    CandidateIsRelative(setup, file, disk);
  }

  /** In a mode other than copy or move one pass transfers nothing and leaves the disk alone. */
  lemma PassModeNone(setup: Setup, w: Progress, file: string)
    requires SetupOk(setup) && ModeOf(setup.cfg.mode).None?
    ensures var r := Pass(setup, w, file).0;
      r.transfers == w.transfers && r.disk == w.disk
  {
    PassShape(setup, w, file);
    var c := Candidate(setup, file, w.disk);
    if c.Success? {
      EntryRecords(setup, Answered(setup, w), file, c.value);
    }
  }

  /** Entry only extends the records, by at most the one transfer of source to dest. */
  lemma EntryRecords(setup: Setup, w: Progress, source: string, dest: string)
    ensures var r := Entry(setup, w, source, dest);
      && |w.transfers| <= |r.transfers| <= |w.transfers| + 1 && r.transfers[..|w.transfers|] == w.transfers
      && |w.failures| <= |r.failures| && r.failures[..|w.failures|] == w.failures
      && (|r.transfers| > |w.transfers| ==> r.transfers[|w.transfers|].source == source && r.transfers[|w.transfers|].dest == dest)
      && (ModeOf(setup.cfg.mode).None? ==> r.transfers == w.transfers && r.disk == w.disk)
  {
    var ok := OneFileOk(setup, w.disk, source, dest);
    EntryParts(setup, w, source, dest);
    assert (w.transfers + Made(setup, ok, source, dest))[..|w.transfers|] == w.transfers;
    assert (w.failures + Logged(ok, source, dest))[..|w.failures|] == w.failures;
  }

  /** mediaTool's loop only extends the records. */
  lemma {:induction false} PassesExtend(setup: Setup, w: Progress, images: seq<string>, n: nat)
    requires SetupOk(setup) && n <= |images|
    ensures var r := PassesFrom(setup, w, images, n).0;
      && |w.transfers| <= |r.transfers| && r.transfers[..|w.transfers|] == w.transfers
      && |w.failures| <= |r.failures| && r.failures[..|w.failures|] == w.failures
    decreases |images| - n
  {
    if n < |images| {
      var step := Pass(setup, w, images[n]);
      PassExtends(setup, w, images[n]);
      if !step.1 {
        PassesExtend(setup, step.0, images, n + 1);
        var r := PassesFrom(setup, step.0, images, n + 1).0;
        assert r.transfers[..|w.transfers|] == r.transfers[..|step.0.transfers|][..|w.transfers|];
        assert r.failures[..|w.failures|] == r.failures[..|step.0.failures|][..|w.failures|];
      }
    }
  }

  /** Every transfer mediaTool's loop makes is of an image of the walk, to that image's candidate. */
  lemma {:induction false} PassesTransferImages(setup: Setup, w: Progress, images: seq<string>, n: nat)
    requires SetupOk(setup) && n <= |images|
    ensures var r := PassesFrom(setup, w, images, n).0;
      forall k :: |w.transfers| <= k < |r.transfers| ==> r.transfers[k].source in images[n..] && Relative(setup, r.transfers[k])
    decreases |images| - n
  {
    if n < |images| {
      var step := Pass(setup, w, images[n]);
      PassExtends(setup, w, images[n]);
      PassTransfersImage(setup, w, images[n]);
      if |step.0.transfers| > |w.transfers| {
        CandidateRelative(setup, images[n], w.disk, step.0.transfers[|w.transfers|]);
      }
      if step.1 {
        assert images[n] in images[n..];
      } else {
        PassesTransferImages(setup, step.0, images, n + 1);
        PassesExtend(setup, step.0, images, n + 1);
        TransfersFromImages(setup, w.transfers, step.0.transfers, PassesFrom(setup, step.0, images, n + 1).0.transfers, images, n);
      }
    }
  }

  /** The transfers of one pass followed by those of the rest of the loop are all of images of the walk. */
  lemma TransfersFromImages(setup: Setup, before: seq<Transfer>, mid: seq<Transfer>, after: seq<Transfer>, images: seq<string>, n: nat)
    requires SetupOk(setup) && n < |images|
    requires |before| <= |mid| <= |before| + 1 && mid[..|before|] == before
    requires |mid| > |before| ==> mid[|before|].source == images[n] && Relative(setup, mid[|before|])
    requires |mid| <= |after| && after[..|mid|] == mid
    requires forall k :: |mid| <= k < |after| ==> after[k].source in images[n + 1..] && Relative(setup, after[k])
    ensures forall k :: |before| <= k < |after| ==> after[k].source in images[n..] && Relative(setup, after[k])
  {
    assert images[n + 1..] == images[n..][1..];
    assert images[n] == images[n..][0];
    forall k | |before| <= k < |after|
      ensures after[k].source in images[n..] && Relative(setup, after[k])
    {
      if k < |mid| {
        assert after[k] == mid[k];
      }
    }
  }

  /** In a mode other than copy or move the loop transfers nothing and leaves the disk alone. */
  lemma {:induction false} PassesModeNone(setup: Setup, w: Progress, images: seq<string>, n: nat)
    requires SetupOk(setup) && n <= |images| && ModeOf(setup.cfg.mode).None?
    ensures var r := PassesFrom(setup, w, images, n).0;
      r.transfers == w.transfers && r.disk == w.disk
    decreases |images| - n
  {
    if n < |images| {
      var step := Pass(setup, w, images[n]);
      PassModeNone(setup, w, images[n]);
      if !step.1 {
        PassesModeNone(setup, step.0, images, n + 1);
      }
    }
  }

  /** An image the records account for: logged as unresolved or skipped, transferred, or its transfer logged as failed. */
  predicate Accounted(setup: Setup, w: Progress, file: string)
  {
    || Unresolved(file) in w.failures || Skipped(file) in w.failures
    || (exists f :: f in w.failures && f.TransferFailed? && f.source == file)
    || (exists t :: t in w.transfers && t.source == file)
    || ModeOf(setup.cfg.mode).None?
  }

  lemma AccountedStays(setup: Setup, w: Progress, r: Progress, file: string)
    requires Accounted(setup, w, file)
    requires |w.transfers| <= |r.transfers| && r.transfers[..|w.transfers|] == w.transfers
    requires |w.failures| <= |r.failures| && r.failures[..|w.failures|] == w.failures
    ensures Accounted(setup, r, file)
  {
    assert forall f :: f in w.failures ==> f in r.failures by {
      forall f | f in w.failures
        ensures f in r.failures
      {
        var k :| 0 <= k < |w.failures| && w.failures[k] == f;
        assert r.failures[k] == f;
      }
    }
    if t :| t in w.transfers && t.source == file {
      var k :| 0 <= k < |w.transfers| && w.transfers[k] == t;
      assert r.transfers[k] == t;
    }
  }

  /**
   * With yes to all the loop reads no input and runs to the end, and every
   * image is accounted for in the records.
   */
  lemma {:induction false} YesAccountsForAll(setup: Setup, w: Progress, images: seq<string>, n: nat)
    requires SetupOk(setup) && n <= |images| && setup.cfg.yes
    ensures var r := PassesFrom(setup, w, images, n);
      && !r.1 && r.0.input == w.input
      && forall i :: n <= i < |images| ==> Accounted(setup, r.0, images[i])
    decreases |images| - n
  {
    if n < |images| {
      var step := Pass(setup, w, images[n]);
      var file := images[n];
      YesStepAccounts(setup, w, file);
      YesAccountsForAll(setup, step.0, images, n + 1);
      PassesExtend(setup, step.0, images, n + 1);
      AccountedStays(setup, step.0, PassesFrom(setup, step.0, images, n + 1).0, file);
    }
  }

  /** With yes to all one pass reads no input, goes on, and accounts for its image. */
  lemma YesStepAccounts(setup: Setup, w: Progress, file: string)
    requires SetupOk(setup) && setup.cfg.yes
    ensures var step := Pass(setup, w, file);
      !step.1 && step.0.input == w.input && Accounted(setup, step.0, file)
  {
    var step := Pass(setup, w, file);
    match Candidate(setup, file, w.disk)
    case Failure(f) =>
      assert step.0.failures[|w.failures|] == f;
    case Success(dest) =>
      var ok := OneFileOk(setup, w.disk, file, dest);
      EntryParts(setup, w, file, dest);
      if !ok {
        assert step.0.failures[|w.failures|] == TransferFailed(file, dest);
      } else if ModeOf(setup.cfg.mode).Some? {
        assert step.0.transfers[|w.transfers|].source == file;
      }
  }

  /** The loop stops early only when it had to ask and stdin ran out. */
  lemma {:induction false} AbortOnlyWhenStdinRunsOut(setup: Setup, w: Progress, images: seq<string>, n: nat)
    requires SetupOk(setup) && n <= |images|
    ensures var r := PassesFrom(setup, w, images, n);
      r.1 ==> !setup.cfg.yes && r.0.input == []
    decreases |images| - n
  {
    if n < |images| {
      var step := Pass(setup, w, images[n]);
      if !step.1 {
        AbortOnlyWhenStdinRunsOut(setup, step.0, images, n + 1);
      }
    }
  }

  /** Answering "no" to every prompt transfers nothing and leaves the disk alone. */
  lemma {:induction false} AnsweringNo(setup: Setup, w: Progress, images: seq<string>, n: nat)
    requires SetupOk(setup) && n <= |images| && !setup.cfg.yes
    requires forall k :: 0 <= k < |w.input| ==> Reply(w.input[k]) == Some(false)
    ensures var r := PassesFrom(setup, w, images, n).0;
      r.disk == w.disk && r.transfers == w.transfers
    decreases |images| - n
  {
    if n < |images| {
      var step := Pass(setup, w, images[n]);
      if Candidate(setup, images[n], w.disk).Success? && w.input != [] {
        PassDeclined(setup, w, images[n], 1);
      }
      if !step.1 {
        AnsweringNo(setup, step.0, images, n + 1);
      }
    }
  }

  /** The same setup with yes to all. */
  function YesToAll(setup: Setup): (s: Setup)
    ensures s.cfg.yes && SetupOk(s) == SetupOk(setup)
  {
    setup.(cfg := setup.cfg.(yes := true))
  }

  /**
   * Answering "yes" to every prompt, with a line for each image, does what
   * yes to all does: the same transfers, errors and disk, and no early stop.
   */
  lemma {:induction false} AnsweringYes(setup: Setup, wa: Progress, wb: Progress, images: seq<string>, n: nat)
    requires SetupOk(setup) && n <= |images| && !setup.cfg.yes
    requires wa.disk == wb.disk && wa.transfers == wb.transfers && wa.failures == wb.failures
    requires |images| - n <= |wa.input| && forall k :: 0 <= k < |wa.input| ==> Reply(wa.input[k]) == Some(true)
    ensures var a, b := PassesFrom(setup, wa, images, n), PassesFrom(YesToAll(setup), wb, images, n);
      && !a.1 && a.0.disk == b.0.disk && a.0.transfers == b.0.transfers && a.0.failures == b.0.failures
    decreases |images| - n
  {
    if n < |images| {
      var yes := YesToAll(setup);
      var file := images[n];
      var sa, sb := Pass(setup, wa, file), Pass(yes, wb, file);
      YesStepAgrees(setup, wa, wb, file);
      AnsweringYes(setup, sa.0, sb.0, images, n + 1);
    }
  }

  /** A pass answered "yes" does what the same pass does with yes to all, and uses at most one line. */
  lemma YesStepAgrees(setup: Setup, wa: Progress, wb: Progress, file: string)
    requires SetupOk(setup) && !setup.cfg.yes
    requires wa.disk == wb.disk && wa.transfers == wb.transfers && wa.failures == wb.failures
    requires 1 <= |wa.input| && forall k :: 0 <= k < |wa.input| ==> Reply(wa.input[k]) == Some(true)
    ensures var a, b := Pass(setup, wa, file), Pass(YesToAll(setup), wb, file);
      && !a.1 && !b.1 && (a.0.input == wa.input || a.0.input == wa.input[1..])
      && a.0.disk == b.0.disk && a.0.transfers == b.0.transfers && a.0.failures == b.0.failures
  {
    var yes := YesToAll(setup);
    assert Candidate(yes, file, wa.disk) == Candidate(setup, file, wa.disk);
    match Candidate(setup, file, wa.disk)
    case Failure(f) =>
    case Success(dest) =>
      AskFirst(wa.input, 1);
      EntryAgrees(setup, yes, wa.(input := wa.input[1..]), wb, file, dest);
  }

  /** Entry depends on the setup only through the mode and the failure oracles, and on the progress only through the disk and the records. */
  lemma EntryAgrees(s1: Setup, s2: Setup, w1: Progress, w2: Progress, source: string, dest: string)
    requires s1.cfg.mode == s2.cfg.mode && s1.mkdirFails == s2.mkdirFails && s1.transferFails == s2.transferFails
    requires w1.disk == w2.disk && w1.transfers == w2.transfers && w1.failures == w2.failures
    ensures var a, b := Entry(s1, w1, source, dest), Entry(s2, w2, source, dest);
      a.disk == b.disk && a.transfers == b.transfers && a.failures == b.failures
  {
  }

  // ---------------------------------------------------------------------
  // The end of mediaTool in Together mode

  /** How a run ended: normally, by a declined confirmation, or by log.Fatal when stdin ran out. */
  datatype Outcome = Finished | Declined | Aborted

  /**
   * The single confirmation and processFiles over todoMap, from w0 to w1:
   * with yes to all processFiles runs at once; otherwise a "no" ends the run
   * and stdin running out aborts it, both changing nothing but the input,
   * while a "yes" runs processFiles.
   */
  ghost predicate TogetherEnd(setup: Setup, m: map<string, string>, w0: Progress, w1: Progress, outcome: Outcome)
  {
    if setup.cfg.yes then outcome == Finished && FilesProcessed(setup, m, w0, w1)
    else
      var asked := Ask(w0.input);
      var rest := w0.(input := w0.input[asked.1..]);
      && (asked.0.None? ==> outcome == Aborted && w1 == rest)
      && (asked.0 == Some(false) ==> outcome == Declined && w1 == rest)
      && (asked.0 == Some(true) ==> outcome == Finished && FilesProcessed(setup, m, rest, w1))
  }

  /** A first yes-or-no line that is a no declines the whole map: nothing is transferred. */
  lemma TogetherDeclined(setup: Setup, m: map<string, string>, w0: Progress, w1: Progress, outcome: Outcome, used: nat)
    requires TogetherEnd(setup, m, w0, w1, outcome) && !setup.cfg.yes
    requires 1 <= used <= |w0.input| && NoReplyBefore(w0.input, used - 1) && Reply(w0.input[used - 1]) == Some(false)
    ensures outcome == Declined && w1.disk == w0.disk && w1.transfers == w0.transfers && w1.failures == w0.failures
  {
    AskFirst(w0.input, used);
  }

  /** The run aborts only when stdin runs out with no yes-or-no line. */
  lemma TogetherAborted(setup: Setup, m: map<string, string>, w0: Progress, w1: Progress)
    requires TogetherEnd(setup, m, w0, w1, Aborted)
    ensures !setup.cfg.yes && w1.input == [] && NoReplyBefore(w0.input, |w0.input|)
    ensures w1.disk == w0.disk && w1.transfers == w0.transfers
  {
  }

  /**
   * A first yes-or-no line that is a yes hands the whole map to processFiles:
   * every entry that would succeed on the disk is transferred.
   */
  lemma TogetherConfirmed(setup: Setup, m: map<string, string>, w0: Progress, w1: Progress, outcome: Outcome, used: nat)
    requires TogetherEnd(setup, m, w0, w1, outcome) && !setup.cfg.yes
    requires 1 <= used <= |w0.input| && NoReplyBefore(w0.input, used - 1) && Reply(w0.input[used - 1]) == Some(true)
    ensures outcome == Finished && FilesProcessed(setup, m, w0.(input := w0.input[used..]), w1)
  {
    AskFirst(w0.input, used);
  }

  // ---------------------------------------------------------------------
  // mediaTool

  class MediaTool {
    const setup: Setup
    /** The paths that exist (fileExists). */
    var disk: set<string>
    /** The lines stdin has yet to deliver. */
    var input: seq<string>
    /** todoMap of Together mode. */
    var todo: map<string, string>
    /** The transfers performed, in order. */
    var transfers: seq<Transfer>
    /** The errors logged, in order. */
    var failures: seq<Failure>

    /** Everything but todoMap, as one value. */
    function State(): Progress
      reads this
    {
      Progress(disk, input, transfers, failures)
    }

    constructor(setup: Setup, disk: set<string>, input: seq<string>)
      requires SetupOk(setup)
      ensures this.setup == setup && this.disk == disk && this.input == input
      ensures todo == map[] && transfers == [] && failures == []
    {
      this.setup := setup;
      this.disk := disk;
      this.input := input;
      todo := map[];
      transfers := [];
      failures := [];
    }

    /** askForConfirmation on stdin: the answer Ask finds, and the lines it read are gone. */
    method Confirm() returns (answer: Option<bool>)
      modifies this
      ensures answer == Ask(old(input)).0 && input == old(input)[Ask(old(input)).1..]
      ensures disk == old(disk) && todo == old(todo) && transfers == old(transfers) && failures == old(failures)
    {
      var used;
      answer, used := AskForConfirmation(input);
      input := input[used..];
    }

    /**
     * processOneFile: the parent directory of dest is created first and its
     * failure is returned; then "copy" copies, "move" renames, and any other
     * mode does nothing and succeeds.
     */
    method ProcessOneFile(source: string, dest: string) returns (ok: bool)
      modifies this
      ensures ok == OneFileOk(setup, old(disk), source, dest)
      ensures ok && ModeOf(setup.cfg.mode).Some? ==>
        var t := Transfer(ModeOf(setup.cfg.mode).value, source, dest);
        transfers == old(transfers) + [t] && disk == After(old(disk), t)
      ensures !(ok && ModeOf(setup.cfg.mode).Some?) ==> transfers == old(transfers) && disk == old(disk)
      ensures input == old(input) && todo == old(todo) && failures == old(failures)
    {
      if setup.mkdirFails(dest) {
        return false;
      }
      match ModeOf(setup.cfg.mode)
      case None =>
        ok := true;
      case Some(kind) =>
        if source in disk && !setup.transferFails(source, dest) {
          var t := Transfer(kind, source, dest);
          disk := After(disk, t);
          transfers := transfers + [t];
          ok := true;
        } else {
          ok := false;
        }
    }

    /** One entry of processFiles: processOneFile, and its error logged. */
    method ProcessEntry(source: string, dest: string) returns (ok: bool)
      modifies this
      ensures ok == OneFileOk(setup, old(disk), source, dest)
      ensures State() == Entry(setup, old(State()), source, dest) && todo == old(todo)
    {
      ok := ProcessOneFile(source, dest);
      if !ok {
        failures := failures + [TransferFailed(source, dest)];
      }
    }

    /**
     * processFiles: every entry of m is processed once, in an order the
     * model leaves open; a failure is logged and the loop goes on.
     */
    method ProcessFiles(m: map<string, string>)
      modifies this
      ensures FilesProcessed(setup, m, old(State()), State()) && todo == old(todo)
    {
      ghost var w0 := State();
      ghost var made: seq<Transfer>, logged: seq<Failure> := [], [];
      ProcessedNone(setup, m, w0);
      var rest := m.Keys;
      while rest != {}
        invariant rest <= m.Keys && todo == old(todo)
        invariant Processed(setup, m, w0, m.Keys - rest, made, logged, State())
        decreases |rest|
      {
        var s :| s in rest;
        ghost var w := State();
        var ok := ProcessEntry(s, m[s]);
        ProcessedStep(setup, m, w0, m.Keys - rest, made, logged, w, s);
        made := made + Made(setup, ok, s, m[s]);
        logged := logged + Logged(ok, s, m[s]);
        assert m.Keys - (rest - {s}) == (m.Keys - rest) + {s};
        rest := rest - {s};
      }
      assert m.Keys - rest == m.Keys;
      ProcessedAll(setup, m, w0, made, logged, State());
    }

    /**
     * One pass of mediaTool's loop in Together mode: the image's candidate
     * goes into todoMap under the destination directory, or its error into
     * the log; nothing is transferred yet.
     */
    method Record(file: string)
      requires SetupOk(setup)
      modifies this
      ensures todo == Admit(setup.cfg.destination, old(todo), file, Candidate(setup, file, old(disk)))
      ensures failures == Log(old(failures), Candidate(setup, file, old(disk)))
      ensures disk == old(disk) && input == old(input) && transfers == old(transfers)
    {
      var candidate := Candidate(setup, file, disk);
      if candidate.Failure? {
        failures := failures + [candidate.error];
      } else {
        todo := todo[file := Join([setup.cfg.destination, candidate.value])];
      }
    }

    /**
     * One pass of mediaTool's loop otherwise, as Pass specifies it; `aborted`
     * reports that stdin ran out at the prompt.
     */
    method TransferNow(file: string) returns (aborted: bool)
      requires SetupOk(setup)
      modifies this
      ensures (State(), aborted) == Pass(setup, old(State()), file) && todo == old(todo)
    {
      aborted := false;
      var candidate := Candidate(setup, file, disk);
      if candidate.Failure? {
        failures := failures + [candidate.error];
        return;
      }
      if !setup.cfg.yes {
        var answer := Confirm();
        if answer.None? {
          return true;
        }
        if !answer.value {
          return;
        }
      }
      var _ := ProcessEntry(file, candidate.value);
    }

    /**
     * mediaTool over the entries of a walk: every image is handled in walk
     * order, and a failure is logged without stopping the loop. In Together
     * mode todoMap is then, after one confirmation, handed to processFiles.
     */
    method Run(entries: seq<DirEntry>) returns (outcome: Outcome)
      requires SetupOk(setup)
      modifies this
      ensures setup.cfg.together ==>
        var images, cand := Selected(entries, IsImage), Candidates(setup, old(disk));
        && todo == Plan(setup.cfg.destination, images, cand)
        && TogetherEnd(setup, todo, old(State()).(failures := old(failures) + PlanFailures(images, cand)), State(), outcome)
      ensures !setup.cfg.together ==>
        && todo == map[] && outcome != Declined
        && (State(), outcome == Aborted) == PassesFrom(setup, old(State()), Selected(entries, IsImage), 0)
    {
      var images, _, _ := Walk(entries);
      todo := map[];
      if setup.cfg.together {
        RecordAll(images);
        outcome := ProcessTogether();
      } else {
        var aborted := TransferAll(images);
        outcome := if aborted then Aborted else Finished;
      }
    }

    /**
     * mediaTool's loop in Together mode: each image's candidate goes into
     * todoMap, each failure into the log, in walk order.
     */
    method RecordAll(images: seq<string>)
      requires SetupOk(setup)
      requires todo == map[]
      modifies this
      ensures todo == Plan(setup.cfg.destination, images, Candidates(setup, old(disk)))
      ensures failures == old(failures) + PlanFailures(images, Candidates(setup, old(disk)))
      ensures disk == old(disk) && input == old(input) && transfers == old(transfers)
    {
      ghost var cand := Candidates(setup, disk);
      ghost var f0 := failures;
      var n := 0;
      while n < |images|
        invariant n <= |images|
        invariant disk == old(disk) && input == old(input) && transfers == old(transfers)
        invariant todo == Plan(setup.cfg.destination, images[..n], cand)
        invariant failures == f0 + PlanFailures(images[..n], cand)
      {
        PlanStep(setup.cfg.destination, images, n, cand);
        assert cand(images[n]) == Candidate(setup, images[n], disk);
        Record(images[n]);
        assert failures == f0 + PlanFailures(images[..n + 1], cand) by {
          match cand(images[n])
          case Success(_) =>
          case Failure(f) =>
            assert f0 + PlanFailures(images[..n], cand) + [f] == f0 + (PlanFailures(images[..n], cand) + [f]);
        }
        n := n + 1;
      }
      assert images[..n] == images;
    }

    /**
     * mediaTool's loop otherwise, as PassesFrom specifies it: each image in
     * walk order, until stdin runs out at a prompt (`aborted`).
     */
    method TransferAll(images: seq<string>) returns (aborted: bool)
      requires SetupOk(setup)
      modifies this
      ensures (State(), aborted) == PassesFrom(setup, old(State()), images, 0) && todo == old(todo)
    {
      var n := 0;
      aborted := false;
      while n < |images|
        invariant n <= |images| && !aborted && todo == old(todo)
        invariant PassesFrom(setup, State(), images, n) == PassesFrom(setup, old(State()), images, 0)
      {
        aborted := TransferNow(images[n]);
        if aborted {
          return;
        }
        n := n + 1;
      }
    }

    /** The end of mediaTool in Together mode, as TogetherEnd specifies it: one confirmation, then processFiles over todoMap. */
    method ProcessTogether() returns (outcome: Outcome)
      modifies this
      ensures TogetherEnd(setup, todo, old(State()), State(), outcome) && todo == old(todo)
    {
      if !setup.cfg.yes {
        var answer := Confirm();
        if answer.None? {
          return Aborted;
        }
        if !answer.value {
          return Declined;
        }
      }
      ProcessFiles(todo);
      return Finished;
    }
  }
}
