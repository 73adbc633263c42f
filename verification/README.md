# llamaman: admin authentication, benchmarks and the rules around them

A Dafny 4.11 model of the parts of llamaman where a wrong step is expensive, with proofs about whole runs of them.
`dafny verify dfyconfig.toml` checks everything. Every lemma carries `{:induction false}`: its proof is the one that
is written, and Dafny's automatic induction is used nowhere.

Each piece of source that changes rows, files or buffers step by step is a `class` or a `method` proved against a
function of the old state; the theorems are about that function, over every sequence of steps.

## What is modelled

**Admin lockout** (`Lockout`, `LockoutRuns`, `LockoutBudget`, `LockoutIsolation`, `LockoutInterleaved`,
`LockoutOverlap`). The attempt and lockout tables, the failure budget whose start is moved by the window, the last
lockout and the last success, and the doubling under a cap in 64-bit nanoseconds. Proved over every sequence of events
with a clock that does not go back: a wrong password is answered with a lockout **if and only if**, with it,
`maxAttempts` guesses of its address lie within the window and after its last lockout and last success
(`LocksExactly`), so after either the next `maxAttempts - 1` are answered as wrong passwords; how long the k-th
lockout since a success is, that lockouts do not overlap, one `locked` audit row per episode, that addresses do not
influence each other. The sliding-window bound (never more than `maxAttempts` failed logins in a window without a
success) holds **if and only if** the window is shorter than the first lockout; otherwise a burst and one login more
break it. With `Login` split into its read, its password check and its write, at most `k - 1` guesses are still judged
after a lockout commits when `k` calls are in flight, and at most `k - 1` of them lock the address once more within
that episode; one run reaches both bounds (`BoundsAreReached`).

**Sessions** (`Sessions`, `SessionsEnd`, `SessionsInUse`, `SessionsReturn`). Absolute expiry, idle window, throttled
touch, revocation, requests with a touch in flight. After any run that follows its mint a cookie resolves **if and
only if** less than `ttl` has passed, nothing revoked it, and the idle window since the last touch written is not over
(`SessionsEnd.ResolvesExactly`); past its expiry or revoked, it never resolves again (`EndsForGood`). A cookie that
was seen idle can come back only through a touch that was already under way (`CanResolveExactly`), and
`IdleSessionComesBack` is a run in which it does. A cookie used regularly resolves until it expires exactly if no idle
window ends before that, or the gaps are at most `idle - touch`; its row is written at most once per touch interval. A
reset ends every session and a password change all but the caller's, touches in flight included.

**Passwords** (`Passwords`). Logins and changes that read the stored hash, verify outside any transaction and write
later. `ChangePassword` is documented to take effect everywhere but here (`internal/auth/service.go:557-560`); it does
if and only if no other call in flight has passed its verification with another password (`InForceExactly`). A login
that has opens a session all the same, and if it saw a weak hash it writes a hash of the old password over the new one
(`OldPasswordComesBack`).

**Setup token** (`SetupToken`). The row and the file, one operation at a time, with a crash between any two or within
the write, and the file deleted from outside at any time. A file always belongs to the row, a finished mint
authorizes, a claimed host is repaired at the next boot. One case is not repaired and no comment of the source
mentions it: a crash within the write leaves a beginning of the token, the next boots keep that file, and its content
does not authorize. `FileAuthorizesExactly` is the condition. Of all tokens only the last one minted authorizes, until
the host is claimed.

**Encodings** (`Base58`, `Base64`, `Phc`, `Text`). Both directions of base58 on every byte string, with the length
bound `len * 138 / 100 + 1` of the preallocated buffer (the comment in `base58.go` describes the same bound as a
ceiling); the argon2id string and its strict parser, down to RFC 4648 base64 without padding.

**Build log stream** (`Sse`). The frames, on a connection that may break at any byte, read back by the parser of
section 9.2.6 of the WHATWG HTML standard. The lines come back as they were **if and only if** none has a carriage
return, and a client reads exactly what came while it stayed (`LogIsRead`).

**GPU guard** (`Gpu`, `Sweep`, `SweepGuard`, `Sorting`). The inventory, the reading of device names and selectors, the
conflicts, and the expansion of a sweep into points by its odometer. The guard is asked about the base configuration
alone. A point runs with its own `tensor_split` laid over the base and with the words of `bench.extra_flags` at the
end of its command line (`internal/bench/sweep.go:138-142`, `internal/instances/render.go:268-315`); only `-m`, `-o`
and `-r` are forbidden among them (`internal/instances/extraflags.go:32`), so they may select cards too. `Effective`
lets a selector that is given again replace the earlier one; how llama-bench reads it is not in the repository, and
`PointsAreGuardedExactly` holds whatever the points really select: no collision of any point is missed **if and only
if** the cards have no names at all, where everything live is returned, or every card that a point can reach is in
what the base resolves to.

- For points that run with the base itself, as they do without a split axis and without extra words that select
  (`PlainSweepRunsTheBase`), that holds for every base exactly on hosts where every card has a name and no index has two
  (`BasesAreGuardedExactly`).
- For every sweep, with its split axis and extra words, it holds only on hosts whose cards all have one name
  (`SweepsAreGuardedExactly`): a split (`SplitIsMissed`) or an extra word (`ExtraIsMissed`) misses on any two others, and
  `UnnamedCardIsMissed` is a miss among selections alone.
- An instance is assumed to use no card outside its measurement, or outside its flags. `instances.extra_flags` may name a
  device as well, and the guard does not read it: an instance known by its flags alone is returned whatever its extra words
  select exactly if what its flags resolve to meets the targets anyway (`InstanceIsReturnedExactly`).

`internal/model/flagset.go:41-44` documents a split and a main card as positions in the `--device` list while
`internal/bench/gpu.go` reads them as card numbers; `EitherReadingIsCovered` shows the guard covers both readings.

**Event log pager** (`Pager`). Following the cursor while the log grows. The route documents `subject_id` as a filter
(`internal/api/jobs.go:345`), but the store looks at a subject only together with its type, which the route never
sets: the parameter changes nothing (`SubjectIsIgnored`).

**Route table** (`Routes`, `RoutePaths`, `RouteGrammar`). Registration, the order of the document, the accepted
patterns, their parameters and templates. A template is stable and keeps the parameter names **if and only if** the
pattern does not end in `{$...}`, which `validatePattern` accepts (`DollarIsAccepted`) although its template `{$}` is
no parameter any more.

**Presets** (`Presets`). The overlay of a preset over an instance's flags and over many instances. When an instance
refuses the patch its entry still names the keys that would have changed, as the code does.

**Settings** (`SettingsPatch`, `SettingsCache`). Which keys a patch writes, also when it stops in the middle, and
which of them need a restart; and the read-through cache under concurrent reads and writes. The cache holds what is
stored **if and only if** no `Load` installs a row that was replaced since it was read (`CachedIsStoredExactly`):
`Load` raises the generation but does not look at it (`LateLoadIsStale`). A load installs such a row if and only if a
key of it was committed with another value since and every writer of that key has invalidated already
(`StaleIsReplacedExactly`). The daemon calls `Load` only while it boots.

**Benchmark runs** (`BenchRuns`, `BenchSafety`, `BenchCancel`, `BenchService`, `BenchLife`). Runs, points, jobs, the
lease, the worker's stops and restarts, crashes, the boot's triage and restore, as one machine. In every run an
instance that a benchmark stopped and that is still down is on the list of a run that owes it, and two sweeps are
never carried out at once. The source says that no sweep begins into a fleet that is not put back
(`internal/bench/restore.go:34-36`, `internal/store/bench.go:613-617`). A run keeps to that **if and only if** it
never takes the lease of a run that owes a restore (`SweepsBesideOwedExactly`), and there are two ways to take it.
When a boot could not restore, the lease of the earlier boot stays held, and once it lapses `AcquireBenchLease` takes
it without looking at what its run owes (`LapsedLeaseIsTaken`). And when a worker's own restore failed, its finished
job is deleted by the retention sweep 90 days later (`internal/app/maintenance.go:192-198`), which looks at no debt;
`bench_lease.job_id` is `ON DELETE SET NULL` (`internal/store/migrations/0001_init.sql:813`), and nobody holds the
lease any more (`PurgedLeaseIsTaken`, within one boot and with no lapsed lease). From then on nothing guards the debt,
and later sweeps begin beside it on a free lease too (`ThirdSweepBegins`). The machine lets a finished job be deleted
at any time. An accepted cancel is never lost and its job never begins (`BenchCancel`). An undisturbed benchmark
starts again whatever it stopped and leaves the fleet as it was (`LifeIsNeutral`). A list that cannot be read is given
up, which loses a restore exactly when one of its instances is down; the worker only writes lists that can be read.

Parameters of the model: hashes and the key derivation are functions, assumed injective only where a statement says
so; instants and random values are arguments; JSON text is parsed where its rows are made, and an unreadable column is
a case of its own. Every `repo.Write` body is one atomic step.

## Model

| member | source | states |
|---|---|---|
| Lockout.LockoutFor | internal/auth/service.go:520-532 | The 64-bit doubling loop never overflows and gives the base doubled once per earlier strike, at most 24 hours |
| Lockout.LoginService.FailLogin | internal/auth/service.go:436-500 | The attempt row, and the lockout with one more strike exactly when the failures since window edge, last lockout and last success use up the budget |
| Lockout.LoginService.Login | internal/auth/service.go:320-432 | All tables and the answer after one login: refused while locked with one audit row, failed, or admitted with the strikes cleared, one more session and the hash upgraded if that was due |
| LockoutRuns.LockoutsEscalate | internal/auth/service.go:436-532 | In every history of an address the k-th lockout since the last success has the k-th length, each starts no earlier than the one before ends, and each has at most one `locked` row |
| LockoutRuns.LockLengthInMs | internal/auth/service.go:454-532 | For a base in seconds the first lockout is the base, 15 minutes if none is set, and each next one twice as long, none longer than 24 hours, in milliseconds |
| LockoutRuns.WindowInMs | internal/auth/service.go:454 | The window in milliseconds is its duration cut off toward zero |
| LockoutRuns.RefusedExactly | internal/auth/service.go:332-383 | In every history a login is refused if and only if the last thing that happened to its address is a lockout that has not ended |
| LockoutBudget.LocksExactly | internal/auth/service.go:436-500 | In every history a wrong password that is let through is answered with a lockout if and only if, with it, at least maxAttempts guesses of the address (no refused logins) lie in the window and after all its lockouts and successes; otherwise as bad credentials |
| LockoutBudget.ResetRenewsTheBudget | internal/auth/service.go:445-466 | After a success or a lockout the next maxAttempts-1 wrong passwords are answered as bad credentials, whatever was guessed before |
| LockoutRuns.RunStaysBounded | internal/auth/service.go:436-500 | With a window shorter than the first lockout, every window without a success holds at most the allowed failures after any history |
| LockoutRuns.WindowBoundBroken | internal/auth/service.go:454-470 | Otherwise a burst and a login at the end of the lockout put one failure too many into a window |
| LockoutRuns.WindowBoundExactly | internal/auth/service.go:436-500 | The sliding-window bound holds over all histories if and only if the window is shorter than the first lockout |
| LockoutIsolation.AddressesDoNotInterfere | internal/auth/service.go:320-500 | What an address is answered depends only on the events of that address |
| LockoutIsolation.RetryAfterIsEnough | internal/auth/service.go:534-545 | A client that waits as long as it was told is not locked any more |
| LockoutIsolation.RetryAfterIsTight | internal/auth/service.go:534-545 | A client that waits a second less is still locked, where lockouts have whole milliseconds |
| LockoutInterleaved.GuessesAfterLockout | internal/auth/service.go:332-398 | From the commit of a lockout, while the row says locked, at most k-1 guesses are judged with k calls in flight |
| LockoutOverlap.LockoutsAfterLockout | internal/auth/service.go:436-500 | From the commit of a lockout, while the row says locked, k calls in flight lock the address at most k-1 times more |
| LockoutOverlap.BoundsAreReached | internal/auth/service.go:332-489 | For every k a run in which k-1 guesses and k-1 lockouts follow the first lockout |
| LockoutInterleaved.AloneIsSequential | internal/auth/service.go:320-432 | The split steps of a login that runs alone are the sequential login |
| Sessions.CookieRoundTrip | internal/auth/session.go:71-80 | A composed cookie splits into its parts exactly when both are non-empty and the id has no separator |
| Sessions.SessionService.ResolveSession | internal/auth/service.go:212-263 | The session of a cookie exactly if its row is there with its hash, is not revoked, has not expired and is not idle; and the touch of its row exactly when it is due and writable |
| Sessions.SessionService.MintSession | internal/auth/service.go:661-694 | The new row and its cookie |
| Sessions.SessionService.RevokeSession | internal/auth/service.go:642-656 | The row is revoked at this instant exactly when it was not before, and no other changes |
| Sessions.CanResolveExactly | internal/auth/service.go:212-263 | A cookie can resolve now or later if and only if its row lives, its hash fits, and the row or a touch in flight is recent enough |
| SessionsEnd.ResolvesExactly | internal/auth/service.go:225-263 | After any run that follows its mint, touches in flight included, a cookie resolves if and only if less than ttl has passed since, nothing revoked it, and the idle window since the last touch written is not over |
| SessionsEnd.EndsForGood | internal/auth/service.go:236-248 | Once ttl has passed since the mint, or after a revocation, the cookie resolves in no continuation |
| SessionsEnd.RowOverARun | internal/store/auth.go:146-210 | Over any run a row keeps hash, creation and expiry, is there until it expires, is revoked exactly if a revocation names it, and does not change after that |
| Sessions.ResetEndsEverySession | internal/auth/setuptoken.go:332-367 | After a password reset no earlier cookie resolves in any continuation, touches in flight included |
| Sessions.ChangeKeepsOnlyTheCaller | internal/auth/service.go:591-598 | After a password change exactly the caller's cookie keeps what it could do |
| SessionsInUse.UseIsARequest | internal/auth/service.go:212-263 | One use in the regular-use theorem is one resolved request with its touch, and a request decides on a touch exactly if it resolves a touch interval after the last one |
| SessionsInUse.TouchesAreRare | internal/auth/service.go:249-262 | However often a session is used, its row is written at most once per touch interval |
| SessionsReturn.IdleSessionComesBack | internal/auth/service.go:212-263 | A run from an empty table in which a cookie is refused for idleness and resolves again once a slow touch is written |
| SessionsInUse.KeptAliveExactly | internal/auth/service.go:661-694 | Under any policy, a minted cookie used with gaps of at most `gap` resolves until it expires if and only if no idle window ends before, or the gap is at most idle minus touch |
| Passwords.Accounts.Login | internal/auth/service.go:373-424 | An undisturbed login opens one session exactly if the password is right, and upgrades a weak hash at most |
| Passwords.Accounts.ChangePassword | internal/auth/service.go:561-612 | The next password is set exactly if the current one was given; then a session is live exactly if it is the caller's and was live, and no session is added or loses its password |
| Passwords.Accounts.ResetPassword | internal/auth/setuptoken.go:332-367 | The next password is set exactly if there is an account, and then no session lives |
| Passwords.InForceExactly | internal/auth/service.go:389-424 | A password just set holds, and only it opens sessions, until another change begins, if and only if no call in flight has passed its verification with another |
| Passwords.StaysExactly | internal/auth/service.go:409-420 | The stored password holds if and only if no change, and no login that saw a weak hash, has passed its verification with another |
| Passwords.ChangeSets | internal/auth/service.go:591-598 | A committed change sets the password, and of the sessions there were exactly the caller's stays live if it was; it is in force exactly under that condition on the other calls |
| Passwords.OldPasswordComesBack | internal/auth/service.go:409-420 | A run in which a login in flight puts the old password back after a change and opens a session with it |
| Passwords.RevokedEnds | internal/auth/service.go:642-656 | A revoked session is never live again, whatever calls follow |
| SetupToken.SetupService.EnsureSetupToken | internal/auth/setuptoken.go:72-137 | The uninterrupted boot: repaired, kept or minted, as the steps of the crash machine say |
| SetupToken.SetupService.MintSetupToken | internal/auth/setuptoken.go:140-182 | Row with the token's hash and path, unclaimed; file with the token and a line feed |
| SetupToken.SetupService.Claim | internal/auth/setuptoken.go:264-325 | A claim is granted exactly without an account; it stamps the row and forgets its path, makes the account with its hash, one login row and one session, and removes the file; otherwise nothing changes |
| SetupToken.FileBelongsToRow | internal/auth/setuptoken.go:140-182 | From an empty directory, after any steps, crashes and deletions, a file has a row and is a beginning of the line of the token whose hash the row holds |
| SetupToken.MintedTokenAuthorizes | internal/auth/setuptoken.go:140-251 | A completed mint leaves a file whose content is read back as the token and authorizes |
| SetupToken.ClaimedTokenIsDead | internal/auth/setuptoken.go:218-325 | Once there is an account no presented token authorizes, whatever happens after |
| SetupToken.OneClaimIsGranted | internal/auth/setuptoken.go:279-311 | Over any sequence of steps at most one claim is granted, and none when there is an account |
| SetupToken.OnlyTheLastTokenAuthorizes | internal/auth/setuptoken.go:218-251 | In any run exactly the token minted last authorizes, while there is a row and no account |
| SetupToken.ClaimRemovesFile | internal/auth/setuptoken.go:312-325 | After a claim its file goes with the removal that follows, unless the daemon crashes first |
| SetupToken.StuckFileStays | internal/auth/setuptoken.go:91-105 | A boot of a claimed host that cannot remove the file forgets its path and goes on |
| SetupToken.BootRepairsClaimedHost | internal/auth/setuptoken.go:72-105 | A boot of a claimed host removes the file and clears the path |
| SetupToken.BootKeepsFile | internal/auth/setuptoken.go:106-137 | A boot that finds row and file changes nothing |
| SetupToken.BootMints | internal/auth/setuptoken.go:106-182 | A boot that lacks row or file mints |
| SetupToken.FileAuthorizesExactly | internal/auth/setuptoken.go:187-251 | The token read from the file authorizes if and only if the file was written at least to the end of the token |
| SetupToken.TruncatedTokenSticks | internal/auth/setuptoken.go:106-137 | A boot keeps a file that was cut short, and what is in it does not authorize |
| SetupToken.CrashMidWriteTruncates | internal/auth/setuptoken.go:160-182 | A crash within the write reaches that state from an empty directory |
| SetupToken.ReadPrefix | internal/auth/setuptoken.go:187-211 | Reading any beginning of the token's line gives that beginning of the token |
| SetupToken.TrimToken | internal/auth/setuptoken.go:199-211 | Exactly the blanks, tabs, line feeds and carriage returns at both ends are cut off |
| Base58.Base58Encode | internal/auth/base58.go:19-46 | The division loop, the ones and the reversal in place give the encoding and stay within the preallocated buffer |
| Base58.ReverseInPlace | internal/auth/base58.go:42-44 | The used part is reversed |
| Base58.DecodeEncode | internal/auth/base58.go:19-46 | A reference decoder gives back every byte string, leading zeros included |
| Base58.EncodeDecode | internal/auth/base58.go:14-46 | Every text over the alphabet is the encoding of what it decodes to |
| Base58.EncodeInjective | internal/auth/base58.go:19-46 | Different byte strings have different encodings |
| Base58.EncodeFits | internal/auth/base58.go:29-34 | The encoding, leading zeros included, has at most len*138/100+1 characters |
| Base58.EncodeUsesAlphabet | internal/auth/base58.go:14-17 | Every character is in the alphabet and none is a blank |
| Base58.TokenSurvivesItsFile | internal/auth/setuptoken.go:164-211 | An encoded token written with a line feed is read back unchanged |
| Base64.DecodeEncode | internal/auth/password.go:168-178 | Unpadded base64 is decoded to the bytes it encodes, for every byte string |
| Phc.DecodePhc | internal/auth/password.go:180-242 | The parser's branches and loop compute the decoding function |
| Phc.DecodeEncode | internal/auth/password.go:168-242 | For all costs in range and non-empty salt and key, decoding the printed string gives exactly them |
| Phc.HashIsSpelled | internal/auth/password.go:40-131 | A hash is spelled `$argon2id$v=19$m=,t=,p=$salt$key` with its costs, or 64 MiB, 2 passes, one to four lanes, 16 and 32 bytes where none are set |
| Phc.EachCostIsNamedOnce | internal/auth/password.go:196-228 | Any accepted string names each of m, t and p exactly once |
| Phc.DecodedIsSane | internal/auth/password.go:180-242 | Any accepted string is of version 19, has costs from 1 to what their fields hold, and a salt and a key that are not empty |
| Phc.VersionIsScanned | internal/auth/password.go:180-200 | The version is read behind any spaces and in front of anything, but not behind a line feed |
| Phc.VerifyOfHash | internal/auth/password.go:107-166 | Verifying a hash compares derived keys and asks for a rehash exactly when it was made with less memory, fewer passes or a shorter key than is asked now, where 64 MiB, 2 and 32 bytes stand for what is not set |
| Phc.FreshHashVerifies | internal/auth/password.go:107-131 | A fresh hash verifies and asks for no rehash |
| Sse.Response.StreamLog | internal/api/llamacpp.go:896-953 | On a connection that takes only so many bytes, what is written is that much of the log's frames |
| Sse.StreamRoundTrip | internal/api/llamacpp.go:909-953 | A finished stream parses to its lines in order and one `end` event if and only if no line has a carriage return |
| Sse.LogIsRead | internal/api/llamacpp.go:896-953 | On a connection that holds a client reads the tail, then every line that came while it stayed if the build runs, and the end unless it left before |
| Sse.LogIsPrefix | internal/api/llamacpp.go:909-953 | Whatever is written, on any connection, is a beginning of a finished stream |
| Sse.CutStreamIsPrefix | internal/api/llamacpp.go:909-953 | A client cut off at any byte has seen whole lines from the start, in order |
| Gpu.NewInventory | internal/bench/gpu.go:84-101 | The sorted names there are, under each index the last name given, and unknown only for a host with cards and no names |
| Gpu.DeviceIndex | internal/bench/gpu.go:164-178 | The trailing number of a trimmed name, or -1 |
| Gpu.DeviceHasItsNumber | internal/bench/gpu.go:164-178 | Any name followed by a number, in any space, is the device of that number, or -1 beyond 64 bits |
| Gpu.NamelessHasNone | internal/bench/gpu.go:164-178 | A name without a number at its end is no device's |
| Gpu.Resolve | internal/bench/gpu.go:126-160 | The sorted names of the cards that the three selectors name, in whatever order the set is ranged over, else all |
| Gpu.OccupancyOf | internal/bench/gpu.go:181-212 | The measured list, or the assumed superset when there is none that can be read |
| Gpu.Conflicts | internal/bench/gpu.go:237-262 | One occupancy per kept instance, in the order of the instances, with its cards as measured, and marked assumed unless the inventory is known and the measurement readable |
| Gpu.KeptAre | internal/bench/gpu.go:237-262 | Kept are exactly the live instances whose claim meets the target, each once and in order |
| Gpu.UnknownMeansEveryone | internal/bench/gpu.go:218-262 | Without an inventory exactly the instances that are not deleted and starting, loading, ready or degraded are returned, all marked assumed |
| Gpu.IdleIsNeverReturned | internal/bench/gpu.go:214-262 | A deleted instance, or one that is unknown, stopped, stopping, failed or crash-looping, is never returned |
| Gpu.ResolveIsEmptyExactly | internal/bench/gpu.go:126-160 | A selection resolves to nothing if and only if no card has a name |
| Gpu.SelectionIsCovered | internal/bench/gpu.go:84-160 | Every selected named card is resolved, for all selections, if and only if no index has two names |
| Gpu.NoCollisionIsMissed | internal/bench/gpu.go:218-262 | With named cards and one name per index, or with no inventory, an instance that is starting, loading, ready or degraded and really uses a card of a benchmark running with the resolved flags is returned |
| Gpu.UnnamedCardIsMissed | internal/bench/gpu.go:84-101 | A host with one card without a name, two selections that share it, and no conflict returned |
| Sweep.Expand | internal/bench/sweep.go:214-261 | The odometer writes the n-th point's axis values in mixed-radix order, the last axis fastest |
| Sweep.ExpandSweep | internal/bench/sweep.go:214-318 | Refused exactly when an axis has more than 16 values or the product is over 512; empty axes count as one |
| Sweep.EveryCellOnce | internal/bench/sweep.go:207-261 | Every combination of axis values is one point, and only one |
| Sweep.LastAxisRunsTogether | internal/bench/sweep.go:207-261 | Points differ in the test alone exactly when they lie in one block of the size of the tests |
| SweepGuard.ExpansionHasThePoints | internal/bench/sweep.go:394-404 | The flags of the expanded points, before extra words, are the base with each split value laid over it, or the base alone |
| SweepGuard.EffectiveIs | internal/instances/render.go:243-317 | The selectors a point is rendered with read back as the point's, and the extra words at the end are laid over them |
| SweepGuard.PointsAreGuardedExactly | internal/bench/gpu.go:226-262 | Whatever the points select, the guard, asked about the base, misses no collision of any if and only if no card has a name or every card a point can reach is in what the base resolves to |
| SweepGuard.SweepIsGuardedExactly | internal/bench/create.go:105-165 | The same of the points of a sweep, with its split values and its extra words |
| SweepGuard.BasesAreGuardedExactly | internal/bench/gpu.go:20-48 | Of points that run with the base itself no collision is missed, for every base, if and only if no card has a name, or all have and no index has two |
| SweepGuard.PlainSweepRunsTheBase | internal/bench/sweep.go:138-142 | Without a split axis and without extra words that select, every point runs with the base |
| SweepGuard.InstanceIsReturnedExactly | internal/bench/gpu.go:179-215 | A live instance known by its flags is returned for every card it may share with a point, whatever its own extra words select, if and only if there is no card, no card has a name, or its flags alone meet the targets |
| SweepGuard.SplitIsMissed | internal/bench/restore.go:54-76 | On any two differently named cards, a base on one and a split on the other miss an instance measured on the other |
| SweepGuard.ExtraIsMissed | internal/instances/extraflags.go:29-32 | On any two differently named cards, a base on one and a permitted extra word that names the other miss an instance measured on the other |
| SweepGuard.SweepsAreGuardedExactly | internal/bench/create.go:105-165 | No collision is missed for every base, split axis and permitted extra words if and only if no card has a name or all cards have one |
| Gpu.EitherReadingIsCovered | internal/model/flagset.go:41-49 | A card selected by its position in the device list is resolved too |
| Sorting.SortForgetsOrder | internal/bench/sweep.go:768-772 | Sorting gives the same list whatever order the elements come in |
| Pager.ListEvents | internal/api/jobs.go:354-393 | The refusal of an unknown category; or the newest rows below the cursor of the category, if one is named, as many as the limit or 200, and a cursor to the last of them unless they are fewer |
| Pager.PagingIsExact | internal/api/jobs.go:361-393 | A client that follows the cursor while the log grows sees exactly the events that matched at its first request, and ends after exactly the counted requests |
| Pager.MatchingIsNewestFirst | internal/store/events.go:57-101 | Those are all rows that match, from the newest to the oldest |
| Pager.RequestsAre | internal/api/jobs.go:387-391 | With a limit one request more than full pages; without one, more than pages of 200 |
| Pager.SubjectIsIgnored | internal/api/jobs.go:361-365 | The subject of a request narrows nothing |
| Routes.ValidatePattern | internal/api/route.go:244-303 | Accepted are exactly the patterns of whole-segment wildcards with names of their own, the multi-segment one and `{$}` only at the end |
| RoutePaths.SpelledExactly | internal/api/route.go:257-303 | The segments that may be registered, as they are spelled: text without braces, `{$}`, `{name}` and `{name...}`, with names that are not empty and have no brace, slash, dot or blank |
| RouteGrammar.AcceptedExactly | internal/api/route.go:244-303 | Accepted are exactly the patterns spelled by a list of legal parts: each wildcard name once, and an empty part, `{$}` or `{name...}` only at the end |
| Routes.PathParams | internal/api/route.go:310-323 | The wildcards between the braces, in order |
| Routes.RenderInPlace | internal/api/route.go:337-354 | The segments rewritten in their array are the rendered segments |
| Routes.OpenApiPath | internal/api/route.go:337-354 | The template: rendered segments joined, without a closing slash |
| Routes.OrderOf | internal/api/route.go:229-240 | The position of a method among the seven of the table's order, or 99 for any other |
| Routes.OrderIsIndex | internal/api/route.go:218-240 | The order of a known method is its position, so different known methods are never tied |
| Routes.Registry.Add | internal/api/route.go:144-192 | A route is added exactly if it has a known method, a handler, an operation id, one of three authentications, an accepted pattern, a POST if idempotent, a code if rate-limited and a 2xx status, and neither its key nor its operation is taken; otherwise routes, keys and operations stay as they are |
| Routes.Registry.Sorted | internal/api/route.go:200-214 | The registered routes, each as often, ordered by pattern and then method; any table with the same routes sorts to this list |
| Routes.DocumentForgetsOrder | internal/api/route.go:200-235 | Two tables with the same routes have the same document order |
| RoutePaths.TemplateIsAccepted | internal/api/route.go:337-354 | The template of an accepted pattern is accepted |
| RoutePaths.TemplateIsIdempotentExactly | internal/api/route.go:337-354 | The template of a template is itself if and only if the pattern does not end in `{$...}` |
| RoutePaths.DollarIsAccepted | internal/api/route.go:244-303 | There is an accepted pattern that ends in `{$...}` |
| RoutePaths.OnlyLastIsMulti | internal/api/route.go:257-303 | The parameters of an accepted pattern have distinct names and only the last takes several segments |
| RoutePaths.TemplateKeepsNamesExactly | internal/api/route.go:310-354 | The template has the parameter names of the pattern, in order, if and only if it does not end in `{$...}` |
| Presets.MergeFlags | internal/app/apipresets.go:260-304 | Merged flags and sorted changed keys, whatever order the map is ranged over |
| Presets.OverlayChangesExactly | internal/app/apipresets.go:247-304 | A key is named exactly when its value changes, and it changes to the preset's |
| Presets.OverlayTwice | internal/app/apipresets.go:278-289 | A second overlay changes nothing |
| Presets.OverlaysCompose | internal/app/apipresets.go:278-289 | Two overlays of one preset are the overlay of what either allows, and name different keys |
| Presets.OverlaysCommute | internal/app/apipresets.go:189-193 | The order of two overlays makes no difference; non-empty lists act as their union |
| Presets.Instances.ApplyPreset | internal/app/apipresets.go:194-247 | One entry per id in order and the fleet after all of them; each entry tells, by its row before and after, exactly the keys that change, the restart of the new row, and the error with which nothing changes |
| Presets.InstancesAreIsolated | internal/app/apipresets.go:207-247 | Every named instance ends as if it were alone and named once, every other as it was |
| Presets.FirstEntryIsItsOwn | internal/app/apipresets.go:207-247 | The first entry of an instance depends on its own row only |
| Presets.FailuresStayAlone | internal/app/apipresets.go:207-247 | Which other instances fail changes neither row nor entry of one |
| SettingsPatch.Settings.constructor | internal/app/apisettings.go:43-61 | The snapshot has exactly the keys that take a restart, each with what was stored, or the default for one without a row or that cannot be read |
| SettingsPatch.Settings.Patch | internal/app/apisettings.go:71-117 | The smallest unknown key and nothing written; the smallest bad value and exactly the smaller keys written; or all written and, sorted, exactly the keys that take a restart and differ from what runs |
| SettingsPatch.BadValueWritesPrefix | internal/app/apisettings.go:78-105 | At a bad value exactly the keys of the body that sort below it are written |
| SettingsPatch.PatchIsWhole | internal/app/apisettings.go:84-105 | A patch goes through exactly when all keys are known and all values valid, and then writes exactly its body |
| SettingsPatch.LitAmongIs | internal/app/apisettings.go:98-116 | The reported keys are the keys of the body that are lit |
| SettingsPatch.LitComparesWithTheStart | internal/app/apisettings.go:153-180 | A key is lit exactly when it takes a restart and the patched value is not the one read at the start |
| SettingsPatch.OthersKeepTheirLight | internal/app/apisettings.go:169-180 | A patch, whole or stopped, leaves the light of any other key |
| SettingsCache.CachedIsStoredExactly | internal/settings/settings.go:77-179 | In any run of reads, writes and loads every cached value is the stored one, but between a write and its invalidation, if and only if no load installs a row that is neither stored any more nor about to be invalidated |
| SettingsCache.StaleIsReplacedExactly | internal/settings/settings.go:77-110 | A load would install something stale if and only if a key of it was committed with another value since it read, and no writer of that key is pending |
| SettingsCache.UntouchedLoadIsFresh | internal/settings/settings.go:77-110 | A load installs nothing stale, however late, if nobody wrote one of its keys since |
| SettingsCache.CachedIsStored | internal/settings/settings.go:168-179 | A load that looked at the generation, as a read does, would be enough |
| SettingsCache.LateLoadIsStale | internal/settings/settings.go:77-110 | A load that straddles one write installs a value that is not stored |
| SettingsCache.ReadIsCached | internal/settings/settings.go:116-179 | A read that misses and is not overtaken caches what is stored, and changes nothing else |
| SettingsCache.WriteIsSeen | internal/settings/settings.go:225-331 | A write replaces exactly its rows, and after its invalidation exactly its keys are not cached and the generation is higher |
| SettingsCache.OvertakenReadIsDropped | internal/settings/settings.go:168-179 | What a read brings after the generation was raised is not cached |
| SettingsCache.LoadIsCached | internal/settings/settings.go:77-110 | A load that is not overtaken leaves exactly its keys cached, with what is stored |
| BenchService.Service.Create | internal/bench/create.go:69-250 | Granted exactly for a valid small sweep on a host that has what it needs, with the request's repetitions or else the default's; the first refusal in order, changing nothing; or one transaction with the run, one row for every point of its expansion and at most one job |
| BenchService.Service.Start | internal/bench/create.go:253-286 | A draft, and nothing else, is queued with its job |
| BenchService.Service.Cancel | internal/bench/create.go:314-334 | Accepted exactly if a job of the run is not over; that job is flagged, and then still held and otherwise as it was if this boot holds it, and over with its run canceled if not |
| BenchCancel.CanceledNeverBegins | internal/jobs/control.go:30-75 | After an accepted cancel, whatever follows, no step begins the job and its flag is never lost |
| BenchCancel.CanceledNeverWorks | internal/jobs/runner.go:208-222 | A job that was not at work when it was canceled never is |
| BenchService.Service.Delete | internal/bench/create.go:364-395 | The run and its points go exactly when every job of it is over and it has stopped nothing or is restored |
| BenchService.Service.Restore | internal/bench/restore.go:153-221 | The listed instances are started in order up to the first that cannot be, and the run is settled exactly when all were or the list cannot be read |
| BenchService.RestoreIsARun | internal/bench/restore.go:153-221 | A restore at boot is a sequence of steps of the machine and keeps its invariant |
| BenchService.Service.RestoreAll | internal/bench/restore.go:238-261 | Every run that owes a restore is tried, in any order, and stays owing exactly when one of its instances cannot be started |
| BenchService.Service.Reconcile | internal/bench/restore.go:238-342 | A boot's repair is a run of the machine; after it what is still down is on a list with an instance that could not be started; if all could, nothing is down or owed and the lease is free; an interrupted run is partial if it was measured and failed if not |
| BenchLife.FinalizerPutsBack | internal/bench/worker.go:164-215 | However a sweep ends, its finalizer starts the listed instances up to the first that cannot be; the run is settled, and the lease freed when it closes, exactly if all could |
| BenchLife.SweepIsReached | internal/bench/restore.go:44-148 | A benchmark with nothing in its way comes to its sweep with every instance of its list down |
| BenchLife.LifeIsNeutral | internal/bench/worker.go:54-215 | From its creation to its end it leaves no instance down that was up, and closes its job, its run and the lease |
| BenchLife.HeartbeatIs | internal/store/bench.go:604-611 | A heartbeat moves the horizon of the lease exactly for the worker that is at work |
| BenchLife.WaitingBegins | internal/bench/worker.go:54-106 | A waiting job of any boot is claimed by the boot that serves and begins on a free lease |
| BenchSafety.NoRestoreIsLost | internal/bench/restore.go:20-36 | In every run each instance a benchmark stopped and nobody started is on the list of an existing run that owes it |
| BenchSafety.OneSweepAtATime | internal/bench/worker.go:54-106 | Two workers are never at work at once |
| BenchSafety.RunsAreWhole | internal/bench/create.go:197-286 | In every run the point rows are as many as the total, and a queued draft has one job and is never a draft again |
| BenchSafety.BeginsExactly | internal/bench/worker.go:54-106 | A claimed job begins exactly if the lease is free, has lost its job, is its own of this boot, or is of an earlier boot and has lapsed; otherwise it waits again and nothing else changes |
| BenchSafety.DeleteIsSafe | internal/bench/create.go:357-395 | A delete that goes through meets no worker, no boot restore and no stopped instance of its run |
| BenchSafety.CrashLeavesTheOld | internal/bench/restore.go:238-277 | After any run and a crash, no job is held and the lease, if not free, is of an earlier boot, as the boot's restore requires |
| BenchSafety.BeginsBesideOwedExactly | internal/store/bench.go:577-600 | While the lease guards what is owed, a sweep begins beside it if and only if the lease is of an earlier boot and has lapsed, or its job was deleted |
| BenchSafety.SweepsBesideOwedExactly | internal/bench/worker.go:54-106 | In any run no sweep ever begins while a restore is owed if and only if none ever begins on the lease, lapsed or without its job, of a run that owes one |
| BenchSafety.LapsedLeaseIsTaken | internal/bench/worker.go:66-94 | A run in which a second sweep begins while an instance the first one stopped is down |
| BenchSafety.PurgedLeaseIsTaken | internal/store/retention.go:131-156 | A run of one boot, without a lapsed lease, in which the finished job of a failed restore is deleted and a second sweep can begin beside that debt |
| BenchSafety.ThirdSweepBegins | internal/store/bench.go:619-635 | Once the second sweep ends its lease is freed, and a third begins beside the same debt |

## Left out

- argon2, SHA-256, HMAC and random bytes: functions and arguments of the model.
- CSRF tokens, cookie attributes, IP and user-agent columns, session listings: field copying.
- Retention of login attempts and events; the pager's log only grows.
- Changes of the hash's cost parameters: which stored hashes are weak does not change while the daemon runs.
- The reading of the authentication policy from the settings, and its conversion from seconds.
- Wrap-around of millisecond instants and of the strike column: unbounded integers. The durations are 64-bit.
- Operating-system errors of the setup token's file other than a crash or a file that cannot be removed.
- Canonicity of an accepted PHC string.
- The gap between the buffered tail and the followed lines of a build log, which is the build service's.
- SQL, the pool and transactions themselves: a transaction body is one step.
- The queue's heartbeat, idempotency records and attempts; a benchmark job is leased at most once, and no route retries one.
- States and counters of single benchmark points, results, labels, argv and a failure to render it, notes and event rows.
- Settling after a stop: the worker goes on whether or not the instances were seen down, which the machine allows at once.
- How an instance's need of a restart is derived, and why a merge or a patch fails: both are given per instance.
- HTTP handlers, DTO projections, the supervisor, downloads, llama.cpp builds, self-update, the gateway, the UI.
