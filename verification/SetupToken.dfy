/**
 The one-time setup token: a database row and a file written in a fixed order by a daemon that may stop
 between any two operations, while somebody else may delete the file at any time.
 */
module SetupToken {
  import opened Options

  /** `setup_claim`: the hash of the last token put there, whether a path is remembered, whether it is burned. */
  datatype Row = Row(tokenHash: string, hasPath: bool, claimed: bool)

  datatype Ensured = AlreadyClaimed | Kept | Minted(token: string)

  /** Where the daemon is; each stage of a boot is named after the operation it is about to do. */
  datatype Stage =
    | Down
    | Reading
    | Unlinking(forget: bool)
    | Forgetting
    | Looking
    | Putting
    | Removing(token: string)
    | Creating(token: string)
    | Writing(token: string)
    | Chmodding(token: string)
    | Serving(ensured: Ensured)

  /**
   `last` is the token whose hash was last put into the row, which no part of the host can read.
   `unlinks` counts committed claims that have not removed the file yet.
   */
  datatype Host = Host(account: bool, row: Option<Row>, file: Option<string>, stage: Stage, unlinks: nat, last: string)

  datatype Event =
    | Start
    | Op(token: string, upTo: nat, removable: bool)
    | Crash
    | LoseFile
    | Claim
    | Unlink

  const FRESH := Host(false, None, None, Down, 0, "")

  /** One operation of `EnsureSetupToken` or `mintSetupToken`. A failing operation is a boot that ends there. */
  function Next(hash: string -> string, h: Host, op: Event): Host
    requires op.Op?
  {
    match h.stage
    case Reading =>
      if h.account || (h.row.Some? && h.row.value.claimed)
      then h.(stage := Unlinking(h.row.Some? && h.row.value.hasPath))
      else h.(stage := if h.row.Some? then Looking else Putting)
    case Unlinking(forget) =>
      h.(file := if op.removable then None else h.file,
         stage := if forget then Forgetting else Serving(AlreadyClaimed))
    case Forgetting =>
      h.(row := if h.row.Some? then Some(h.row.value.(hasPath := false)) else None, stage := Serving(AlreadyClaimed))
    case Looking => h.(stage := if h.file.Some? then Serving(Kept) else Putting)
    case Putting => h.(row := Some(Row(hash(op.token), true, false)), last := op.token, stage := Removing(op.token))
    case Removing(token) =>
      if op.removable then h.(file := None, stage := Creating(token)) else h.(stage := Down)
    case Creating(token) =>
      if h.file.None? then h.(file := Some(""), stage := Writing(token)) else h.(stage := Down)
    case Writing(token) =>
      var line := token + "\n";
      if h.file.None? then h.(stage := Chmodding(token))
      else if |h.file.value| <= op.upTo < |line| then h.(file := Some(line[..op.upTo]))
      else h.(file := Some(line), stage := Chmodding(token))
    case Chmodding(token) => h.(stage := if h.file.Some? then Serving(Minted(token)) else Down)
    case _ => h
  }

  predicate Claims(h: Host) { h.stage.Serving? && !h.account }

  /** The claim transaction: the account, the stamp and the forgotten path, or nothing at all. */
  function Burn(h: Host): Host {
    if !Claims(h) then h
    else
      h.(account := true,
         row := if h.row.Some? && !h.row.value.claimed
                then Some(h.row.value.(claimed := true, hasPath := false)) else h.row,
         unlinks := h.unlinks + 1)
  }

  function Step(hash: string -> string, h: Host, e: Event): Host {
    match e
    case Start => if h.stage == Down then h.(stage := Reading) else h
    case Op(_, _, _) => Next(hash, h, e)
    case Crash => h.(stage := Down, unlinks := 0)
    case LoseFile => h.(file := None)
    case Claim => Burn(h)
    case Unlink => if h.unlinks > 0 then h.(file := None, unlinks := h.unlinks - 1) else h
  }

  function Run(hash: string -> string, h: Host, evs: seq<Event>): Host
    decreases |evs|
  {
    if evs == [] then h else Run(hash, Step(hash, h, evs[0]), evs[1..])
  }

  function Grants(hash: string -> string, h: Host, evs: seq<Event>): nat
    decreases |evs|
  {
    if evs == [] then 0
    else (if evs[0].Claim? && Claims(h) then 1 else 0) + Grants(hash, Step(hash, h, evs[0]), evs[1..])
  }

  // ---------------------------------------------------------------- reading and presenting the token

  predicate IsSpace(c: char) { c == ' ' || c == '\t' || c == '\n' || c == '\r' }

  predicate Solid(token: string) { token != "" && forall c :: c in token ==> !IsSpace(c) }

  function TrimLeft(s: string): string { if s != "" && IsSpace(s[0]) then TrimLeft(s[1..]) else s }

  function TrimRight(s: string): string {
    if s != "" && IsSpace(s[|s| - 1]) then TrimRight(s[..|s| - 1]) else s
  }

  lemma {:induction false} TrimLeftSkips(s: string, n: nat)
    requires n <= |s| && forall i :: 0 <= i < n ==> IsSpace(s[i])
    ensures TrimLeft(s) == TrimLeft(s[n..])
    decreases n
  {
    if n > 0 {
      TrimLeftSkips(s[1..], n - 1);
      assert s[1..][n - 1..] == s[n..];
    } else {
      assert s[0..] == s;
    }
  }

  lemma {:induction false} TrimRightSkips(s: string, n: nat)
    requires n <= |s| && forall i :: n <= i < |s| ==> IsSpace(s[i])
    ensures TrimRight(s) == TrimRight(s[..n])
    decreases |s| - n
  {
    if n < |s| {
      TrimRightSkips(s[..|s| - 1], n);
      assert s[..|s| - 1][..n] == s[..n];
    } else {
      assert s[..n] == s;
    }
  }

  /** What is left of `s` between `start` and `end`: only blanks were cut off, and none is left at either end. */
  predicate TrimmedAt(s: string, r: string, start: int, end: int) {
    && 0 <= start <= end <= |s| && r == s[start..end]
    && (forall i :: 0 <= i < start ==> s[i] in " \t\n\r") && (forall i :: end <= i < |s| ==> s[i] in " \t\n\r")
    && (start < end ==> s[start] !in " \t\n\r" && s[end - 1] !in " \t\n\r")
  }

  method TrimToken(s: string) returns (r: string)
    ensures r == TrimRight(TrimLeft(s))
    ensures exists start, end :: TrimmedAt(s, r, start, end)
  {
    var start, end := 0, |s|;
    while start < end && IsSpace(s[start])
      invariant 0 <= start <= end == |s|
      invariant forall i :: 0 <= i < start ==> IsSpace(s[i])
    {
      start := start + 1;
    }
    TrimLeftSkips(s, start);
    ghost var left := s[start..];
    while end > start && IsSpace(s[end - 1])
      invariant start <= end <= |s|
      invariant forall i :: end <= i < |s| ==> IsSpace(s[i])
    {
      end := end - 1;
    }
    TrimRightSkips(left, end - start);
    SliceOfSlice(s, start, end);
    r := s[start..end];
    SpacesAre();
    assert TrimmedAt(s, r, start, end);
  }

  lemma {:induction false} SpacesAre()
    ensures forall c :: IsSpace(c) <==> c in " \t\n\r"
  {
  }

  lemma {:induction false} SliceOfSlice(s: string, start: nat, end: nat)
    requires start <= end <= |s|
    ensures s[start..][..end - start] == s[start..end]
  {
  }

  /** `ReadSetupTokenFile`: nothing for a missing or blank file. */
  function ReadToken(file: Option<string>): Option<string> {
    if file.None? || TrimRight(TrimLeft(file.value)) == "" then None else Some(TrimRight(TrimLeft(file.value)))
  }

  /** What a solid token's file, whole or cut short, reads back as. */
  lemma {:induction false} ReadPrefix(token: string, n: nat)
    requires Solid(token) && n <= |token| + 1
    ensures ReadToken(Some((token + "\n")[..n])) == if n == 0 then None else Some(if n <= |token| then token[..n] else token)
  {
    var b := (token + "\n")[..n];
    if n <= |token| {
      assert b == token[..n];
    } else {
      assert b == token + "\n";
      assert b[..|token|] == token;
      TrimRightSkips(b, |token|);
    }
  }

  /** `AuthorizeSetup` for a caller that is not on the loopback interface. */
  predicate Authorized(hash: string -> string, h: Host, presented: string) {
    presented != "" && h.row.Some? && !h.row.value.claimed && hash(presented) == h.row.value.tokenHash
  }

  // ---------------------------------------------------------------- the invariant

  predicate Prefix(b: string, line: string) { b <= line }

  ghost predicate StageFits(h: Host) {
    match h.stage
    case Down => true
    case Reading => true
    case Unlinking(_) => h.account
    case Forgetting => h.account
    case Looking => !h.account && h.row.Some?
    case Putting => !h.account && h.file.None?
    case Removing(token) => !h.account && h.row.Some? && token == h.last && h.file.None?
    case Creating(token) => !h.account && h.row.Some? && token == h.last && h.file.None?
    case Writing(token) => !h.account && h.row.Some? && token == h.last
    case Chmodding(token) => !h.account && h.row.Some? && token == h.last && (h.file.Some? ==> h.file.value == token + "\n")
    case Serving(Minted(token)) => h.row.Some? && token == h.last && (h.file.Some? ==> h.file.value == token + "\n")
    case Serving(Kept) => h.row.Some?
    case Serving(AlreadyClaimed) => h.account
  }

  ghost predicate Safe(hash: string -> string, h: Host) {
    && (h.file.Some? ==> h.row.Some? && Prefix(h.file.value, h.last + "\n"))
    && (h.row.Some? ==> h.row.value.tokenHash == hash(h.last))
    && (h.account <==> h.row.Some? && h.row.value.claimed)
    && StageFits(h)
  }

  lemma {:induction false} StepSafe(hash: string -> string, h: Host, e: Event)
    requires Safe(hash, h)
    ensures Safe(hash, Step(hash, h, e))
    ensures h.account ==> Step(hash, h, e).account
  {
  }

  lemma {:induction false} RunSafe(hash: string -> string, h: Host, evs: seq<Event>)
    requires Safe(hash, h)
    ensures Safe(hash, Run(hash, h, evs))
    ensures h.account ==> Run(hash, h, evs).account
    decreases |evs|
  {
    if evs != [] {
      StepSafe(hash, h, evs[0]);
      RunSafe(hash, Step(hash, h, evs[0]), evs[1..]);
    }
  }

  /**
   Whatever crashes, deletions and claims a fresh host goes through, a token file always has a row beside
   it that holds the hash of the token the file is a prefix of, and a new token replaces the row only
   while there is no file.
   */
  lemma {:induction false} FileBelongsToRow(hash: string -> string, evs: seq<Event>)
    ensures var h := Run(hash, FRESH, evs);
            && (h.file.Some? ==>
                  h.row.Some? && exists token :: hash(token) == h.row.value.tokenHash && Prefix(h.file.value, token + "\n"))
            && (h.stage == Putting ==> h.file.None?)
  {
    RunSafe(hash, FRESH, evs);
    var h := Run(hash, FRESH, evs);
    if h.file.Some? {
      assert hash(h.last) == h.row.value.tokenHash && Prefix(h.file.value, h.last + "\n");
    }
  }

  /** A mint that came to its end leaves, until somebody deletes it, a file whose token authorizes a claim. */
  lemma {:induction false} MintedTokenAuthorizes(hash: string -> string, evs: seq<Event>)
    requires var h := Run(hash, FRESH, evs);
             h.stage.Serving? && h.stage.ensured.Minted? && Solid(h.stage.ensured.token) && h.file.Some? && !h.account
    ensures var h := Run(hash, FRESH, evs);
            && ReadToken(h.file) == Some(h.stage.ensured.token)
            && Authorized(hash, h, h.stage.ensured.token)
  {
    RunSafe(hash, FRESH, evs);
    var token := Run(hash, FRESH, evs).stage.ensured.token;
    ReadPrefix(token, |token| + 1);
    assert (token + "\n")[..|token| + 1] == token + "\n";
  }

  /** Once the host is claimed no token authorizes anything, ever again. */
  lemma {:induction false} ClaimedTokenIsDead(
    hash: string -> string, before: seq<Event>, after: seq<Event>, presented: string)
    requires Run(hash, FRESH, before).account
    ensures !Authorized(hash, Run(hash, Run(hash, FRESH, before), after), presented)
  {
    RunSafe(hash, FRESH, before);
    RunSafe(hash, Run(hash, FRESH, before), after);
  }

  /** Of all the claims of a run exactly one is granted if the account exists at the end, and none if not. */
  lemma {:induction false} OneClaimIsGranted(hash: string -> string, h: Host, evs: seq<Event>)
    requires Safe(hash, h)
    ensures Grants(hash, h, evs) == if Run(hash, h, evs).account && !h.account then 1 else 0
    decreases |evs|
  {
    if evs != [] {
      StepSafe(hash, h, evs[0]);
      var g := Step(hash, h, evs[0]);
      OneClaimIsGranted(hash, g, evs[1..]);
      RunSafe(hash, g, evs[1..]);
    }
  }

  /** A token that did not come off loopback opens the setup exactly if it is the last one minted and nobody claimed. */
  lemma {:induction false} OnlyTheLastTokenAuthorizes(hash: string -> string, evs: seq<Event>, presented: string)
    requires Injective(hash)
    ensures var h := Run(hash, FRESH, evs);
      Authorized(hash, h, presented) <==> presented != "" && presented == h.last && h.row.Some? && !h.account
  {
    RunSafe(hash, FRESH, evs);
  }

  /** After a claim nothing but a crash can keep the file from going. */
  lemma {:induction false} ClaimRemovesFile(hash: string -> string, h: Host, evs: seq<Event>)
    requires h.account && h.stage.Serving? && (h.file.Some? ==> h.unlinks > 0) && forall e :: e in evs ==> !e.Crash?
    ensures var g := Run(hash, h, evs);
      && (g.file.Some? ==> h.file.Some? && g.unlinks > 0)
      && (Unlink in evs && h.unlinks > 0 ==> g.file.None?)
    decreases |evs|
  {
    if evs != [] {
      assert forall e :: e in evs[1..] ==> e in evs;
      assert evs == [evs[0]] + evs[1..];
      ClaimRemovesFile(hash, Step(hash, h, evs[0]), evs[1..]);
    }
  }

  /** A claim is granted to a host that serves and has no account; the token goes dead and its file is to be removed. */
  lemma {:induction false} ClaimIs(hash: string -> string, h: Host)
    requires Safe(hash, h) && h.stage.Serving? && !h.account
    ensures var g := Step(hash, h, Claim);
      && g.account && g.unlinks == h.unlinks + 1 && g.file == h.file && g.stage == h.stage
      && g.row == if h.row.Some? then Some(Row(h.row.value.tokenHash, false, true)) else None
  {
  }

  // ---------------------------------------------------------------- an undisturbed boot

  /** `EnsureSetupToken` from its first read to its return, with every operation succeeding. */
  function Boot(hash: string -> string, h: Host, token: string, fuel: nat): Host
    decreases fuel
  {
    if fuel == 0 || h.stage == Down || h.stage.Serving? then h
    else Boot(hash, Next(hash, h, Op(token, |token| + 1, true)), token, fuel - 1)
  }

  const OPERATIONS: nat := 9

  predicate Done(h: Host) { h.account || (h.row.Some? && h.row.value.claimed) }

  /** The next boot after a claim removes the file and forgets its path. */
  lemma {:induction false} BootRepairsClaimedHost(hash: string -> string, h: Host, token: string)
    requires Done(h) && h.stage == Reading
    ensures Boot(hash, h, token, OPERATIONS)
         == h.(file := None,
               row := if h.row.Some? then Some(h.row.value.(hasPath := false)) else None,
               stage := Serving(AlreadyClaimed))
  {
    var op := Op(token, |token| + 1, true);
    var h1 := Next(hash, h, op);
    var h2 := Next(hash, h1, op);
    assert Boot(hash, h, token, 9) == Boot(hash, h1, token, 8) == Boot(hash, h2, token, 7);
    if h2.stage == Forgetting {
      assert Boot(hash, h2, token, 7) == Boot(hash, Next(hash, h2, op), token, 6);
    }
  }

  /** A file that cannot be removed stays, and the boot goes on. */
  lemma {:induction false} StuckFileStays(hash: string -> string, h: Host, op: Event)
    requires Done(h) && h.stage == Reading && h.row.Some? && h.row.value.hasPath && op.Op?
    ensures Next(hash, Next(hash, Next(hash, h, op), op), op)
         == h.(file := if op.removable then None else h.file,
               row := Some(h.row.value.(hasPath := false)), stage := Serving(AlreadyClaimed))
  {
  }

  /** A boot that finds the row and the file keeps both as they are. */
  lemma {:induction false} BootKeepsFile(hash: string -> string, h: Host, token: string)
    requires !Done(h) && h.stage == Reading && h.row.Some? && h.file.Some?
    ensures Boot(hash, h, token, OPERATIONS) == h.(stage := Serving(Kept))
  {
    var op := Op(token, |token| + 1, true);
    var h1 := Next(hash, h, op);
    assert Boot(hash, h, token, 9) == Boot(hash, h1, token, 8) == Boot(hash, Next(hash, h1, op), token, 7);
  }

  /** Any other boot mints a token, and the file holds all of it. */
  lemma {:induction false} BootMints(hash: string -> string, h: Host, token: string)
    requires !Done(h) && h.stage == Reading && !(h.row.Some? && h.file.Some?)
    ensures Boot(hash, h, token, OPERATIONS)
         == Host(false, Some(Row(hash(token), true, false)), Some(token + "\n"), Serving(Minted(token)), h.unlinks, token)
  {
    var op := Op(token, |token| + 1, true);
    var put := if h.row.Some? then Next(hash, Next(hash, h, op), op) else Next(hash, h, op);
    var n: nat := if h.row.Some? then 7 else 8;
    var looked := Next(hash, h, op);
    assert Boot(hash, h, token, 9) == Boot(hash, looked, token, 8);
    assert put.stage == Putting && Boot(hash, h, token, 9) == Boot(hash, put, token, n);
    MintFromPutting(hash, put, token, n);
  }

  lemma {:induction false} MintFromPutting(hash: string -> string, h: Host, token: string, n: nat)
    requires h.stage == Putting && n >= 5 && !h.account
    ensures Boot(hash, h, token, n)
         == Host(false, Some(Row(hash(token), true, false)), Some(token + "\n"), Serving(Minted(token)), h.unlinks, token)
  {
    var op := Op(token, |token| + 1, true);
    var h1 := Next(hash, h, op);
    var h2 := Next(hash, h1, op);
    var h3 := Next(hash, h2, op);
    assert h3.stage == Writing(token) && h3.file == Some("");
    var h4 := Next(hash, h3, op);
    var h5 := Next(hash, h4, op);
    assert Boot(hash, h, token, n) == Boot(hash, h1, token, n - 1) == Boot(hash, h2, token, n - 2);
    assert Boot(hash, h2, token, n - 2) == Boot(hash, h3, token, n - 3) == Boot(hash, h4, token, n - 4);
    assert Boot(hash, h4, token, n - 4) == Boot(hash, h5, token, n - 5);
  }

  // ---------------------------------------------------------------- a token cut short

  ghost predicate Injective(hash: string -> string) { forall a, b :: hash(a) == hash(b) ==> a == b }

  /** Reading the file lets somebody claim the host exactly when the file holds the whole token. */
  lemma {:induction false} FileAuthorizesExactly(hash: string -> string, h: Host)
    requires Injective(hash) && Safe(hash, h) && !h.account && Solid(h.last) && h.file.Some?
    ensures (ReadToken(h.file).Some? && Authorized(hash, h, ReadToken(h.file).value))
       <==> |h.file.value| >= |h.last|
  {
    var n := |h.file.value|;
    assert h.file.value == (h.last + "\n")[..n];
    ReadPrefix(h.last, n);
  }

  /** Every boot keeps a file that holds less than the token: until it is deleted nobody can claim by it. */
  lemma {:induction false} TruncatedTokenSticks(hash: string -> string, h: Host, other: string)
    requires Injective(hash) && Safe(hash, h) && !h.account && Solid(h.last) && h.stage == Reading
    requires h.file.Some? && |h.file.value| < |h.last|
    ensures var g := Boot(hash, h, other, OPERATIONS);
            && g == h.(stage := Serving(Kept))
            && (ReadToken(g.file).Some? ==> !Authorized(hash, g, ReadToken(g.file).value))
  {
    BootKeepsFile(hash, h, other);
    FileAuthorizesExactly(hash, h.(stage := Serving(Kept)));
  }

  /** A first boot that crashes after `n` bytes of the file, and the start of the next one. */
  function CrashMidWrite(token: string, n: nat): seq<Event> {
    var op := Op(token, 0, true);
    [Start] + ([op] + ([op] + ([op] + ([op] + ([Op(token, n, true)] + ([Crash] + ([Start] + [])))))))
  }

  lemma {:induction false} RunCons(hash: string -> string, h: Host, e: Event, rest: seq<Event>)
    ensures Run(hash, h, [e] + rest) == Run(hash, Step(hash, h, e), rest)
  {
    assert ([e] + rest)[1..] == rest;
  }

  /** Every way of cutting the token short does occur. */
  lemma {:induction false} CrashMidWriteTruncates(hash: string -> string, token: string, n: nat)
    requires n < |token|
    ensures Run(hash, FRESH, CrashMidWrite(token, n))
         == Host(false, Some(Row(hash(token), true, false)), Some((token + "\n")[..n]), Reading, 0, token)
  {
    var op, cut := Op(token, 0, true), Op(token, n, true);
    var h1 := Step(hash, FRESH, Start);
    var h4 := Next(hash, Next(hash, Next(hash, h1, op), op), op);
    var h6 := Next(hash, Next(hash, h4, op), cut);
    RunCons(hash, FRESH, Start, [op] + ([op] + ([op] + ([op] + ([cut] + ([Crash] + ([Start] + [])))))));
    RunCons(hash, h1, op, [op] + ([op] + ([op] + ([cut] + ([Crash] + ([Start] + []))))));
    RunCons(hash, Next(hash, h1, op), op, [op] + ([op] + ([cut] + ([Crash] + ([Start] + [])))));
    RunCons(hash, Next(hash, Next(hash, h1, op), op), op, [op] + ([cut] + ([Crash] + ([Start] + []))));
    RunCons(hash, h4, op, [cut] + ([Crash] + ([Start] + [])));
    RunCons(hash, Next(hash, h4, op), cut, [Crash] + ([Start] + []));
    RunCons(hash, h6, Crash, [Start] + []);
    RunCons(hash, Step(hash, h6, Crash), Start, []);
  }

  // ---------------------------------------------------------------- the service

  /** The setup half of the service over the row, the account and the file it writes, undisturbed. */
  class SetupService {
    var account: bool
    var row: Option<Row>
    var file: Option<string>
    var passwordHash: string
    var sessions: seq<string>
    var successes: nat
    ghost var last: string
    const hash: string -> string

    ghost function At(stage: Stage): Host
      reads this
    {
      Host(account, row, file, stage, 0, last)
    }

    constructor (hash: string -> string)
      ensures At(Down) == FRESH && this.hash == hash && sessions == [] && successes == 0
    {
      account, row, file, last, this.hash := false, None, None, "", hash;
      passwordHash, sessions, successes := "", [], 0;
    }

    /** `token` is the encoding of the random bytes a mint would draw. */
    method EnsureSetupToken(token: string) returns (out: Ensured)
      modifies this`row, this`file, this`last
      ensures At(Serving(out)) == Boot(hash, old(At(Reading)), token, OPERATIONS)
    {
      ghost var was := At(Reading);
      if account || (row.Some? && row.value.claimed) {
        file := None;
        if row.Some? && row.value.hasPath {
          row := Some(row.value.(hasPath := false));
        }
        BootRepairsClaimedHost(hash, was, token);
        return AlreadyClaimed;
      }
      if row.Some? && file.Some? {
        BootKeepsFile(hash, was, token);
        return Kept;
      }
      out := MintSetupToken(token);
      BootMints(hash, was, token);
    }

    method MintSetupToken(token: string) returns (out: Ensured)
      modifies this`row, this`file, this`last
      ensures out == Minted(token) && row == Some(Row(hash(token), true, false)) && file == Some(token + "\n") && last == token
    {
      row, last := Some(Row(hash(token), true, false)), token;
      file := None;
      file := Some("");
      file := Some(token + "\n");
      out := Minted(token);
    }

    /** One transaction for the account, the stamp, the login row and the session; then the file goes. */
    method Claim(passwordHash: string, session: string) returns (granted: bool)
      modifies this
      ensures var was := old(At(Serving(Kept)));
              && granted == Claims(was) == !was.account && account
              && account == Burn(was).account && row == Burn(was).row
              && row == (if granted && was.row.Some? && !was.row.value.claimed
                         then Some(Row(was.row.value.tokenHash, false, true)) else was.row)
              && file == if granted then None else was.file
      ensures this.passwordHash == if granted then passwordHash else old(this.passwordHash)
      ensures sessions == if granted then old(sessions) + [session] else old(sessions)
      ensures successes == old(successes) + if granted then 1 else 0
    {
      if account {
        return false;
      }
      account, this.passwordHash := true, passwordHash;
      sessions, successes := sessions + [session], successes + 1;
      if row.Some? && !row.value.claimed {
        row := Some(row.value.(claimed := true, hasPath := false));
      }
      file := None;
      granted := true;
    }
  }
}
