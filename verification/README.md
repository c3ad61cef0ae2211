# scheck: a model of its engagement core

scheck runs a security engagement as stages over declared assets. This project models the parts of it whose
correctness spans several functions or a whole run, and proves what they promise.

- **Stop and resume** (`Resume.dfy`, `HostFiles.dfy`, `ResumeCalls.dfy`): evidence files and a hash manifest, written one
  after another by sessions that may die between any two writes. A state machine over single effects, a class whose
  methods perform them, and the theorems that what a later session keeps was written by one call, and that a completed
  call is kept.
- **Scope** (`Options.dfy`, `Addresses.dfy`, `Text.dfy`, `Decimal.dfy`, `UrlPaths.dfy`, `CleanPaths.dfy`,
  `LocatorSyntax.dfy`, `LocatorRoundTrip.dfy`, `Spellings.dfy`, `ScopeAlgebra.dfy`, `ScopeMeaning.dfy`, `Admission.dfy`,
  `AdmissionMeaning.dfy`): seven kinds of locators, their ids and spellings, `Under`, `Excludes`, and admission before and
  after name resolution, each with what it means on labels, segments, addresses and roots.
- **Evidence and rules** (`Captures.dfy`, `KeyLines.dfy`, `Rules.dfy`, `CutCaptures.dfy`, `Continuations.dfy`,
  `AccountJoin.dfy`, `LoginShells.dfy`, `LostLines.dfy`, `Evaluation.dfy`): parsers that say when something is missing, three-valued predicates, and what
  completing a capture cut at any byte does to a decided verdict, up to the findings of phase 1.
- **Findings** (`SeverityChain.dfy`, `Grading.dfy`, `GradeTable.dfy`, `FindingStore.dfy`, `Reporting.dfy`,
  `SeedGrades.dfy`, `AgentLoop.dfy`): the severity chain, grading, the store under any sequence of model calls, and the budgeted loop against any provider.
- **Run ledger** (`Ledger.dfy`, `FollowUps.dfy`, `Sorting.dfy`, `Discovery.dfy`): root status and shortfall lists, the
  capped follow-up rounds, and the capped resolver pass.
- **Catalog and handles** (`Binding.dfy`, `BoundArgv.dfy`, `Handles.dfy`): argv templates and what may be bound into them,
  and unique handles.

Loops and objects of the source are methods and classes here, proved against specification functions; the outside
(the provider, checks, the gate, lookups, clocks, re-judging, map order) is an arbitrary parameter or an arbitrary choice.

## What does not hold as one might expect

- `Excludes` is not monotone for what lies under a wide IPv6 network, one that holds a whole IPv4-embedding range and
  more: `::/0` counts as covered by an exclude of `0.0.0.0/0` through the IPv4 addresses it carries, while an IPv6 address
  in it is not. `ExcludedWholeExactly` says that this is the only case.
- A decided verdict on a cut key and value capture may not be the whole capture's: `CutVerdictExactly` says it is exactly
  when a whole line gives the key its value.
- A match on a line or record of a capture cut inside a line may be disproved by the rest of that line, so a finding filed
  on a cut capture may be disproved by its completion (internal/policy/redact.go:258-283 cuts at any byte). `MatchExactly`
  and `FiringExactly` say it stands exactly when a whole line already shows the match, or the last line shows it however
  it goes on; the tests for any output and for pending updates of apt and dnf are of that kind.
- Lines lost inside the account file may hide an earlier line of an account: `LostLinesExactly` says its answer stands
  exactly when no line is lost before its own. A cut of the file never turns an answer into the opposite one.
- A merged report may name the listener of a phase 1 finding and so change its grade: `SeedGradeExactly` says when none can.
- A check that passes validation may be bound to an argv validation refuses: `find {x}` to `find -delete`, `{x}` to `rm`.
  `BoundFitsExactly` says exactly when no binding of a check can.

## Model

| member | source | states |
|---|---|---|
| `Handles.Base` | internal/engagement/github_people.go:168-181 | the handle before any counter always matches the asset-name pattern, whatever the login |
| `Handles.BaseMeans` | internal/engagement/github_people.go:168-181 | the base is the login with everything but letters and digits made hyphens, without those at its ends, cut to 63 characters |
| `Handles.NumberedInjective` | internal/engagement/github_people.go:183-190 | different counters give different handles, even over different bases: what follows the last hyphen is the counter |
| `Handles.TakenBound` | internal/engagement/github_people.go:183-190 | pigeonhole: n taken numbered handles need n used names, so the loop is bounded by the used set |
| `Handles.CandidateHandle` | internal/engagement/github_people.go:168-193 | the loop ends; the handle is fresh, of 1 to 63 characters in the asset-name pattern, and is the base or the first free numbered one |
| `Handles.AssignHandles` | internal/engagement/github_people.go:168-193 | repeated calls over one used map give pairwise distinct, new handles |
| `Addresses.CarriedMonotone` | internal/engagement/gate/addr.go:73-87 | the IPv4 network an IPv6 network carries grows with it |
| `Addresses.CarriedBelow` | internal/engagement/gate/addr.go:73-87 | a network inside one that carries IPv4 addresses and is not wide carries addresses inside those |
| `Addresses.SingleCarries` | internal/engagement/gate/addr.go:73-102 | the forms of an address are the address and the one IPv4 address it carries, if any |
| `Addresses.WideEscapes` | internal/engagement/gate/addr.go:65-87 | a wide IPv6 network holds an address that carries no IPv4 address, though the network carries all of them |
| `UrlPaths.UnescapeEscape` | internal/engagement/locator.go:317-373 | percent-decoding undoes percent-encoding for every byte string (section 2.1 of RFC 3986) |
| `UrlPaths.NormalForm` | internal/engagement/locator.go:317-373 | cleaning is idempotent and leaves no dot segment and no repeated slash (section 5.2.4 of RFC 3986); what it removes is `CleanPaths.ParentRemoved` and the rows after it |
| `UrlPaths.CanonicalShape` | internal/engagement/locator.go:317-373 | a canonical path is rooted, has no repeated slash, and decodes, cleans and encodes to itself |
| `CleanPaths.ParentRemoved` | internal/engagement/locator.go:351-360 | a segment and the ".." after it take each other away, anywhere in a path |
| `CleanPaths.RootHasNoParent` | internal/engagement/locator.go:351-360 | a ".." with nothing before it is dropped |
| `CleanPaths.NothingRemoved` | internal/engagement/locator.go:351-360 | "." and empty parts are dropped anywhere |
| `CleanPaths.LastRemoved` | internal/engagement/locator.go:351-360 | at the end of a path a ".." takes the last segment away and a "." nothing, and no slash is left |
| `CleanPaths.SegmentsKept` | internal/engagement/locator.go:351-360 | a path without dot or empty parts keeps every segment in order, and its last slash |
| `CleanPaths.ParentGone` | internal/engagement/locator.go:351-360 | /a/../b/ is /b/, for every two segments |
| `CleanPaths.EscapesExactly` | internal/engagement/locator.go:360-360 | which bytes of a path are kept, and how the others are written |
| `CleanPaths.HexDigits` | internal/engagement/locator.go:317-360 | hex digits are read in either case |
| `LocatorRoundTrip.ParsedCanonical` | internal/engagement/locator.go:129-157 | whatever parseLocator accepts, of any kind, is a canonical locator of the kind asked for |
| `LocatorRoundTrip.DomainReadsBack` | internal/engagement/locator.go:162-196 | a canonical name is read back as itself and never as an address |
| `LocatorRoundTrip.SiteReadsBack` | internal/engagement/locator.go:200-220 | names and address literals are read back as what they are |
| `LocatorRoundTrip.SiteTextInjective` | internal/engagement/locator.go:177-220 | names and address literals never share a text |
| `LocatorRoundTrip.HostReadsBack` | internal/engagement/locator.go:224-288 | a host's id body reads back through brackets and ports |
| `LocatorRoundTrip.NetworkReadsBack` | internal/engagement/locator.go:291-311 | a masked network's text reads back as that network |
| `LocatorRoundTrip.UrlReadsBack` | internal/engagement/locator.go:317-373 | a url's id body reads back through scheme, brackets, default port and encoded path |
| `LocatorRoundTrip.SaaSReadsBack` | internal/engagement/locator.go:376-399 | a tenant's id body reads back |
| `LocatorRoundTrip.RepoReadsBack` | internal/engagement/locator.go:404-418 | a repository's id body reads back |
| `LocatorRoundTrip.CloudReadsBack` | internal/engagement/locator.go:421-430 | a cloud id's body reads back |
| `LocatorRoundTrip.BodyReadsBack` | internal/engagement/locator.go:129-157 | for all seven kinds, the text after the kind is read back as the same locator |
| `LocatorRoundTrip.IdReadsBack` | internal/engagement/locator.go:116-126 | ParseID reads a canonical locator's id back as that locator |
| `LocatorRoundTrip.RoundTrip` | internal/engagement/locator.go:116-157 | every text parseLocator accepts: the id of what it gave reads back to the same canonical parts |
| `LocatorRoundTrip.IdsExactly` | internal/engagement/locator.go:116-126 | ParseID accepts exactly the ids of canonical locators |
| `LocatorRoundTrip.IdInjective` | internal/engagement/locator.go:116-157 | two canonical locators with one id are one locator |
| `Spellings.NamesAre` | internal/engagement/locator.go:177-196 | a name is dotted labels of 1 to 63 characters, at most 253 in all, at least so many, the last one no number |
| `Spellings.NameShapes` | internal/engagement/locator.go:74-81 | labels, GitHub names, projects, repositories and SSH users by length and characters |
| `Spellings.DomainSpellings` | internal/engagement/locator.go:162-174 | a text is accepted as a domain exactly when it is that name in any case, with or without a last dot |
| `Spellings.SaaSSpellings` | internal/engagement/locator.go:376-399 | exactly which texts are accepted as which tenant |
| `Spellings.RepoSpellings` | internal/engagement/locator.go:404-418 | exactly which texts are accepted as which repository |
| `Spellings.CloudSpellings` | internal/engagement/locator.go:421-430 | exactly which texts are accepted as which project or organization |
| `Spellings.SiteSpellings` | internal/engagement/locator.go:200-220 | an address is read in any spelling but for the mapped and the local-use NAT64 ones; any other text is a name in lower case |
| `Spellings.NetworkSpellings` | internal/engagement/locator.go:291-311 | a network is accepted in any spelling of its address, exactly when it is canonical |
| `Spellings.HostSpellings` | internal/engagement/locator.go:224-288 | a host without a port is read on port 22, a port is read as written, and a user is no part of the locator |
| `Spellings.UrlSpellings` | internal/engagement/locator.go:317-373 | a url is read in any case of its scheme; its default port is dropped; its path is decoded, cleaned and encoded; an empty path is the root |
| `Spellings.ParentInUrl` | internal/engagement/locator.go:352-373 | a url with a segment and its parent is the same locator as the url without them |
| `ScopeAlgebra.UnderIs` | internal/engagement/locator.go:457-487 | on canonical locators Under, which compares texts, is a relation on parts alone; what that relation is, `ScopeMeaning.UnderMeans` says |
| `ScopeAlgebra.UnderPartialOrder` | internal/engagement/locator.go:438-487 | Under is reflexive, transitive and antisymmetric over all seven kinds |
| `ScopeAlgebra.DomainUnderTransitive` | internal/engagement/locator.go:438-440 | being under a domain chains; that it goes by whole labels is `ScopeMeaning.DomainUnderLabels` |
| `ScopeAlgebra.PathUnderTransitive` | internal/engagement/locator.go:444-449 | whole path segments chain |
| `ScopeAlgebra.FindExcluded` | internal/engagement/locator.go:598-614 | the search over the readings of two networks finds exactly whether one reading holds another |
| `ScopeAlgebra.ExcludesIs` | internal/engagement/locator.go:504-524 | on canonical locators Excludes, which compares texts, is a relation on parts alone |
| `ScopeAlgebra.ExcludesMonotoneLeft` | internal/engagement/locator.go:504-524 | if x is under x' and x excludes c then x' excludes c, translated address forms included |
| `ScopeAlgebra.CoversMonotoneRight` | internal/engagement/locator.go:582-614 | if x covers r and c is under r then x covers c, unless r is a wide IPv6 network |
| `ScopeAlgebra.ExcludedWholeExactly` | internal/engagement/locator.go:504-614 | excluding r excludes all that is under r, for every exclude, exactly when r is not a wide IPv6 network |
| `ScopeAlgebra.WideNotWhole` | internal/engagement/locator.go:598-614 | for every wide IPv6 network an exclude and an address under it show the failure |
| `ScopeAlgebra.DefaultRouteNotWhole` | internal/engagement/locator.go:598-614 | the concrete failure: excluding 0.0.0.0/0 excludes ::/0, and not the host at ::fffe:0:0 under it |
| `ScopeMeaning.DomainUnderLabels` | internal/engagement/locator.go:438-440 | a name is under a domain exactly when the domain's labels are its last labels |
| `ScopeMeaning.SiblingsApart` | internal/engagement/locator.go:438-440 | so notexample.com is not under example.com: names that differ in the first label are not under each other |
| `ScopeMeaning.PathUnderSegments` | internal/engagement/locator.go:444-449 | a path is under a prefix exactly when its first segments are the prefix's, and one follows where the prefix ends in a slash |
| `ScopeMeaning.UnderMeans` | internal/engagement/locator.go:451-487 | Under, exactly: equal, or inside the root by labels, by addresses, by site, by segments, by owner or by organization |
| `ScopeMeaning.HoldsMeans` | internal/engagement/gate/addr.go:73-87 | a network holds another exactly when every address of the other is one of its own |
| `ScopeMeaning.CarriedMeans` | internal/engagement/gate/addr.go:65-87 | the IPv4 addresses a network carries are exactly those that one of its addresses writes as ::ffff:w, 64:ff9b::w or 2002:w |
| `ScopeMeaning.Groups` | internal/engagement/gate/addr.go:14-20 | the sixteen-bit groups of the four ranges, as numbers |
| `ScopeMeaning.FormsMean` | internal/engagement/gate/addr.go:89-102 | the forms of an address are itself and the IPv4 address it writes |
| `ScopeMeaning.AddressExcludedMeans` | internal/engagement/locator.go:567-595 | an address is excluded exactly when the exclude's network holds or writes it, or the IPv4 address it writes |
| `ScopeMeaning.NetworkExcludedMeans` | internal/engagement/locator.go:598-614 | a network is excluded exactly when all its addresses, or all the IPv4 addresses they write, are ones the exclude's network holds, or ones it writes |
| `ScopeMeaning.ExcludesMeans` | internal/engagement/locator.go:489-524 | Excludes, exactly: a url by site, port and segments over both schemes, an address however it is written, a host on every port, and what is under it |
| `Admission.FindEvidence` | internal/engagement/scope.go:333-382 | the loops give the first authority that speaks for the origin, a root before a confirmation, and exactly the entries that do |
| `Admission.ListSite` | internal/engagement/scope.go:245-297 | the lists of a site are what roots, assets and confirmations give it, less the suspended confirmations |
| `Admission.ResolvedEvidence` | internal/engagement/scope.go:305-323 | evidence after a lookup: the confirmation whose target the name points at, or a network root holding every one of a non-empty set of addresses |
| `Admission.ResolutionRefines` | internal/engagement/scope.go:209-229 | a refusal before resolution stays one for every lookup, an outright admission stays admitted |
| `Admission.FileAdmissionGround` | internal/engagement/scope.go:209-297 | what is admitted without a lookup stands on a root of the file: its front page, or a path well known, declared or intended for the origin |
| `Admission.ResolvedAdmissionGround` | internal/engagement/scope.go:209-323 | what a resolve answer admits stands on a current confirmation or on network roots |
| `Admission.ResolvedAdmissionExactly` | internal/engagement/scope.go:209-323 | a resolve answer admits exactly when the name points at a current confirmation's target for a confirmed path, or all its addresses are in network roots |
| `Admission.SuspensionAdmitsLess` | internal/engagement/scope.go:245-297 | growing the suspended set never admits more |
| `AdmissionMeaning.FileAdmissionExactly` | internal/engagement/scope.go:209-297 | what the file alone answers, exactly: the front page of a name under a domain root by labels or of a root's address, on the default port; the listed paths where a root speaks for the origin; open for a lookup where the operator's word stands or a network root may; refused otherwise, and for an origin that is not its own id |
| `AdmissionMeaning.LookupAdmissionExactly` | internal/engagement/scope.go:209-323 | what a lookup settles, exactly: admitted as first party when the name points at the target of the first current confirmation, or every address is in network roots in one of its forms; moved otherwise |
| `Captures.ParseLines` | internal/check/parse.go:106-116 | the parsed lines are the non-blank lines of the text in order, without carriage returns |
| `Captures.LinesAppended` | internal/check/parse.go:106-116 | appended text never changes the lines before it |
| `Captures.SplitCut` | internal/check/parse.go:106-116 | a cut at any byte leaves the lines before it whole and the line at the cut a prefix |
| `Captures.ParseKV` | internal/check/parse.go:135-169 | the map holds exactly the first value of every key the lines name |
| `KeyLines.AssignExactly` | internal/check/parse.go:118-120 | a line is KEY=value exactly when its key has no blank, colon or equals sign |
| `KeyLines.ColonExactly` | internal/check/parse.go:122-126 | a line is Some Key: value exactly when blanks follow the first colon and no equals sign is before it |
| `KeyLines.BlankExactly` | internal/check/parse.go:150-158 | the first blank ends the key of any other line, and separators before its value are dropped |
| `KeyLines.LineReads` | internal/check/parse.go:135-169 | what a line gives: of the first form it has, the key in lower case and the value without its quotes |
| `KeyLines.Unquoted` | internal/check/parse.go:160-163 | a pair of quotes around a value is dropped |
| `KeyLines.TwoWordKey` | internal/check/parse.go:122-126 | for one, the lines of sestatus: a key of two words |
| `KeyLines.KeyDecides` | internal/finding/rule.go:100-121 | from a line to the verdict: matched exactly when the value is the rule's in any case, disproved exactly when it is another known one |
| `Captures.ParseRecords` | internal/check/typed.go:79-128 | the records of the recognised lines in order, partial exactly when a line was a marker or not recognised, for shapes that read one line at a time |
| `Captures.TruncatedFragment` | internal/check/typed.go:79-128 | for every shape that reads one line at a time, all but the last record of a text cut at any byte are the first ones of the whole text, and the set is partial |
| `Rules.KeyVerdictSurvives` | internal/finding/rule.go:100-121 | lines appended to a key and value capture change a verdict only if the key was absent |
| `Rules.KeyVerdictOfCut` | internal/finding/rule.go:100-121 | a decided verdict on a capture cut at a line end is the verdict of the whole capture |
| `Rules.CutVerdictExactly` | internal/finding/rule.go:100-121 | a decided verdict on a capture cut at any byte is the verdict of every text it may be the start of, if and only if a whole line before the cut already gives the key its value |
| `Rules.CutInsideLineFlips` | internal/finding/rule.go:100-121 | captures a cut decides wrongly: for every key, every matching word and every longer word no known value equals |
| `Rules.AnyLine` | internal/finding/rule.go:163-188 | matched exactly when a line that is no marker matches; not matched exactly when none does and nothing was removed |
| `Rules.LineVerdictSurvives` | internal/finding/rule.go:163-188 | a match survives appended whole lines; a disproof is a disproof of every part and never of a marked one |
| `Rules.FieldEquals` | internal/finding/rule.go:204-230 | matched exactly when a readable record holds the value; not matched exactly when the set is complete and every record holds another known value |
| `Rules.TypedAppended` | internal/check/typed.go:79-128 | for shapes that read one line at a time, appended lines only append records, and a loss is never forgotten |
| `Rules.RecordVerdictSurvives` | internal/finding/rule.go:204-260 | matches of the record predicates survive appended lines; a disproof means a complete set |
| `CutCaptures.ContinuedExactly` | internal/check/parse.go:106-116 | a line that passes a test is shown by every text that begins with the kept one, if and only if a whole kept line passes or the unfinished one does however it goes on |
| `CutCaptures.LineCutExactly` | internal/finding/rule.go:163-188 | the same of a line match: every continuation has one exactly when a whole line is a hit or every continuation of the unfinished line is |
| `CutCaptures.FieldCutExactly` | internal/finding/rule.go:204-230 | the same of a record that holds the value, for every shape that reads one line at a time |
| `CutCaptures.RecordCutExactly` | internal/finding/rule.go:241-260 | the same of any record at all |
| `CutCaptures.LineCutFlips` | internal/finding/rule.go:163-188 | captures a cut inside a line decides wrongly: for every word and every longer word, the short one matches in the cut capture and is disproved by the whole one |
| `CutCaptures.FieldCutFlips` | internal/finding/rule.go:204-230 | the same of a password status: for every account, matching status and longer known status |
| `Continuations.InkStaysExactly` | internal/finding/rule.go:163-188 | a line with any output is output however it goes on, exactly when it may not become a marker line |
| `Continuations.DnfStays` | internal/check/typed.go:317-328 | a pending update of dnf is one however its line goes on |
| `Continuations.AptStays` | internal/check/typed.go:293-304 | a pending update of apt is one however its line goes on |
| `AccountJoin.Classify` | internal/finding/join.go:82-105 | the accounts with the status and the undecided ones, in order |
| `AccountJoin.AccountNamed` | internal/finding/join.go:191-203 | the first line of that name that is no compat line, and whether it is the last line |
| `AccountJoin.JudgeAccount` | internal/finding/join.go:111-151 | one account's answer: refused, login, or unknown with a reason |
| `AccountJoin.JudgeCandidates` | internal/finding/join.go:106-153 | every account with the status is answered, in order, and the tallies say which answers occur |
| `AccountJoin.Decide` | internal/finding/join.go:72-173 | matched exactly when an account with the status has a login shell; not matched exactly when the listing is complete, recognised, and every such account refuses logins |
| `AccountJoin.FragmentAnswer` | internal/finding/join.go:118-148 | a decided answer over a fragment is the whole listing's answer, or withheld as a cut line |
| `AccountJoin.AnswerStable` | internal/finding/join.go:118-148 | completing the shells changes no decided answer |
| `AccountJoin.MatchedSurvives` | internal/finding/join.go:72-173 | a match on partial listings stays for every completion of both |
| `AccountJoin.NotMatchedSurvives` | internal/finding/join.go:72-173 | a disproof survives every completion of the shells |
| `AccountJoin.CutCapturesSound` | internal/finding/join.go:72-173 | from bytes to verdict, both listings cut at any byte: a match that whole status lines show, or any match when the statuses are cut at a line end, is never disproved by the whole captures and stands where the parser recognises the whole account file; a disproof over cut shells is never a match, and stands there too |
| `AccountJoin.CutNeverContradicts` | internal/finding/join.go:118-148 | no cut of the account file turns a decided answer into the opposite one |
| `LoginShells.RefusesExactly` | internal/check/shells.go:11-21 | a shell refuses logins exactly when it is, trimmed, one of the fourteen listed paths |
| `LoginShells.InteractiveExactly` | internal/check/shells.go:24-35 | a shell is interactive exactly when it is empty or its base name is one of the thirteen listed names |
| `LoginShells.NeverBoth` | internal/check/shells.go:11-35 | no shell is both |
| `LoginShells.AccountFields` | internal/check/typed.go:206-231 | the name, uid, home and shell of an account's line are its first, third, sixth and last fields |
| `LoginShells.OtherAccountLines` | internal/check/typed.go:206-231 | any other line: a comment is skipped, a marked one is lost, two words are a name and a uid, and the rest is lost |
| `LoginShells.FoundExactly` | internal/finding/join.go:191-203 | an account is not found exactly when no line has its name or the name is a compat line's |
| `LoginShells.ShellDecides` | internal/finding/join.go:72-173 | from the two texts to the verdict, for every account, status and shell path: matched exactly when the shell is a login shell, disproved exactly when it is one that refuses logins |
| `LostLines.LostLinesExactly` | internal/finding/join.go:118-203 | a decided answer stands for every text in place of the lost lines of the account file, if and only if no line is lost before the account's own |
| `LostLines.FlippedAt` | internal/finding/join.go:118-203 | for every lost line before the account's own, a text in its place that gives the opposite answer |
| `LostLines.RedactedAccountFlips` | internal/finding/join.go:118-203 | for one: a redaction or truncation marker before two accounts, and the account line the marker may hide |
| `LostLines.OwnRecord` | internal/finding/join.go:191-203 | the record a lookup finds is the one of the first line that names the account |
| `Evaluation.Eval` | internal/finding/rule.go:100-260 | the loops of every predicate compute its verdict on a capture |
| `Evaluation.EvaluateRule` | internal/finding/evaluate.go:97-149 | a rule's outcome: applicability, the usable fact or why there is none, then the predicate, with the second check's reason where it was needed |
| `Evaluation.MatchExactly` | internal/finding/rule.go:100-260 | for every predicate, a match on a capture cut at any byte is a match on every text the kept part may be the start of, if and only if what is kept decides it: a whole line gives the key its value, or shows the line or record, or the unfinished line shows it however it goes on |
| `Evaluation.MatchAtLineEnd` | internal/finding/rule.go:100-260 | a match on a capture cut at a line end is a match on the whole capture, for every predicate |
| `Evaluation.CutDisprovesNothing` | internal/finding/rule.go:124-260 | no predicate but the one on keys disproves anything on a cut capture |
| `Evaluation.CutShellsComplete` | internal/finding/join.go:118-148 | an account file cut at any byte is completed by the whole one exactly when it holds no more records than a whole file with lost lines does |
| `Evaluation.FiringExactly` | internal/finding/evaluate.go:101-149 | a rule that fires fires on every completion of its captures, cut at any byte, if and only if its capture is whole or what it keeps decides the match |
| `Evaluation.DisproofSurvives` | internal/finding/evaluate.go:101-149 | a rule's disproof stands on every completed sheet; of a key, under the same condition |
| `Evaluation.FiringSurvives` | internal/finding/evaluate.go:101-149 | a rule that fires on captures cut at any byte fires on the completed sheet if what is kept decides the match or the cut is at a line end, disabled and unusable checks and the second check included |
| `Evaluation.FindingsSurvive` | internal/finding/evaluate.go:35-149 | a finding phase 1 files on a sheet with cut captures it files on the completed sheet, where every rule that fired is decided by what is kept or cut at a line end |
| `SeverityChain.Chain.Step` | internal/finding/chain.go:78-96 | the move recorded, the severity it leaves, and whether it moved |
| `SeverityChain.RunLinked` | internal/finding/chain.go:78-96 | any run of steps is linked from base to end; each move goes the way and at most as far as asked, and names why it did not move |
| `SeverityChain.CeilingHolds` | internal/finding/chain.go:78-96 | with ceilings at most b no severity of the run is above both the base and b |
| `SeverityChain.PastHighOnlyByRight` | internal/finding/chain.go:78-96 | without a past-high step no severity is above both the base and high |
| `SeverityChain.FirstPastHigh` | internal/finding/chain.go:78-96 | in any run, what first passes the base and high is a past-high step |
| `SeverityChain.LandingIs` | internal/finding/chain.go:78-96 | where a step lands, as arithmetic on ranks, and why it stopped there: the end of the scale, its ceiling, or high without the right to pass it |
| `Grading.AdjustAll` | internal/finding/grade.go:50-74 | the loop is the fold of the table, with a linked chain of steps |
| `Grading.Grade` | internal/finding/grade.go:45-106 | the graded finding, with a chain linked from the base to its severity |
| `Grading.GradeCeiling` | internal/finding/grade.go:45-106 | never above both the base and high; a custom finding never above its base or medium |
| `Grading.GradeIdempotent` | internal/finding/grade.go:45-106 | grading a graded finding changes nothing |
| `Grading.GradeMonotone` | internal/finding/grade.go:45-162 | a graver base never grades lower: the table and its caps keep the order |
| `Grading.DeclaredServiceIsInfo` | internal/finding/grade.go:137-162 | a declared listener is information unless the host faces the internet |
| `GradeTable.GradeIs` | internal/finding/grade.go:45-162 | the grade as arithmetic on ranks, for every context: the listener's, the exposure's and the environment's row in order, critical only for what was critical throughout, a custom finding never raised and at most medium |
| `GradeTable.GradeWithout` | internal/finding/grade.go:45-90 | without a context the grade is the base, a custom finding's at most medium |
| `GradeTable.InternetRaises` | internal/finding/grade.go:148-152 | the internet makes a remote-access or network finding one graver, up to high, and no other |
| `GradeTable.AirGapLowers` | internal/finding/grade.go:153-156 | an air gap takes two off a remote-access finding, and nothing off any other |
| `GradeTable.DevLowers` | internal/finding/grade.go:158-160 | a dev host takes one off every finding |
| `GradeTable.AcceptedExactly` | internal/finding/grade.go:92-103 | accepted exactly when the first risk of the id has no end or one not yet passed, for that risk's reason |
| `FindingStore.Evaluate` | internal/finding/evaluate.go:35-95 | one assessment per rule; one rule finding per fired id, open, with the catalog's text and severity and exactly the fired rules' evidence; severities never rise along the list, and ids of one severity are in order |
| `FindingStore.CheckEvidence` | internal/finding/store.go:193-212 | accepted exactly when every entry cites a successful observation that holds its excerpt |
| `FindingStore.EvidenceBacked` | internal/finding/store.go:193-212 | every entry as stored, trimmed, still occurs in its observation, blanks folded |
| `FindingStore.Validate` | internal/finding/store.go:119-188 | the candidate's finding, or none, by the order of checks |
| `FindingStore.RuleAllowed` | internal/finding/store.go:266-293 | allowed exactly when the platform fits, the id was not disproved, and no premise was |
| `FindingStore.IsDisproved` | internal/finding/store.go:297-304 | disproved exactly when an assessment of the id was not matched |
| `FindingStore.Merge` | internal/finding/store.go:311-328 | the merge contract of a report and an existing finding |
| `FindingStore.MergeIdempotent` | internal/finding/store.go:311-328 | merging the same report again changes nothing; a model finding keeps the higher confidence |
| `FindingStore.ValidatedGrounded` | internal/finding/store.go:119-212 | what validation passes is backed by this run and, when new, not spoken against by a rule |
| `FindingStore.ReportKeeps` | internal/finding/store.go:99-117 | a report keeps the index exact, ids unique, rulings disjoint, phase 1 findings standing, model findings grounded |
| `FindingStore.RuleOutKeeps` | internal/finding/store.go:221-255 | a ruling keeps the same |
| `FindingStore.Final` | internal/finding/store.go:99-255 | after every sequence of observations, reports and rulings the whole invariant holds |
| `FindingStore.Store.constructor` | internal/finding/store.go:41-48 | the seeded store and its index |
| `FindingStore.Store.Report` | internal/finding/store.go:99-117 | the graded finding, or a failure that changed nothing; the state is the run's |
| `FindingStore.Store.RuleOut` | internal/finding/store.go:221-255 | recorded or merged exactly when it fits; findings untouched; a failure changes nothing |
| `Reporting.ReportTakenExactly` | internal/finding/store.go:119-188 | a report is taken exactly when it has a confidence, cites this run, names a real listener if any, and is a custom finding told in full or a host id of the catalog on this platform that no rule speaks against |
| `Reporting.TakenAs` | internal/finding/store.go:119-188 | what a taken report is stored as, field by field |
| `Reporting.StoredAs` | internal/finding/store.go:193-212 | every entry is stored trimmed, under the check that was run |
| `Reporting.RulingTakenExactly` | internal/finding/store.go:221-240 | a ruling is taken exactly when the id is one the model may speak of and no finding, its note says why, and it cites this run |
| `Reporting.MergedConfidence` | internal/finding/store.go:311-328 | a model finding keeps the surer of two confidences, a rule finding its own |
| `Reporting.MergedKeeps` | internal/finding/store.go:311-328 | a merge leaves the evidence of both, the first listener named, and all but note and confidence as it was |
| `Reporting.MergedNote` | internal/finding/store.go:311-328 | the note stays when it already says the report's, and otherwise gets it at its end, marked as the model's |
| `SeedGrades.SeedGradeExactly` | internal/finding/store.go:99-328 | no run of calls changes how a phase 1 finding grades, if and only if there is no context, no declared service, a known listener, an id the model may not report, or neither row of the table that a named listener brings in moves the grade |
| `SeedGrades.IndifferentExactly` | internal/finding/grade.go:137-162 | no listener changes the grade exactly when the step down to information does not, where a declared service can be named, and the step up for an undeclared one does not, for a network finding |
| `SeedGrades.ListenersFrom` | internal/finding/store.go:266-328 | in every run the listener of a phase 1 finding is its own, or a valid one that a report the model may make named |
| `SeedGrades.NamingRuns` | internal/finding/store.go:99-328 | the run that names a listener: an observation, the premises, the report |
| `SeedGrades.DeclaredListenerRegrades` | internal/finding/store.go:99-328 | for one: that run makes a phase 1 finding information when the listener is a declared one and the host does not face the internet |
| `AgentLoop.Session.Exhaust` | internal/agent/agent.go:80-84 | an exhausted budget ends the run |
| `AgentLoop.Session.Account` | internal/agent/agent.go:87-94 | bytes are counted, and going over latches |
| `AgentLoop.Session.Execute` | internal/agent/tools.go:146-184 | the check runs exactly while both its budgets last, its output is handed over exactly when it succeeded and fits, and the run ends exactly when a budget did not |
| `AgentLoop.Session.Report` | internal/agent/tools.go:188-227 | an open verdict reports to the store and counts when taken, a ruled-out one rules out and files nothing, any other touches nothing; an error exactly when the store refused |
| `AgentLoop.Session.Call` | internal/agent/tools.go:116-143 | every call is executed as what it is: the named check, text.cat for a file, a report, or an error; a report never ends the run |
| `AgentLoop.Session.AnswerCalls` | internal/agent/agent.go:175-188 | one result per call, in order, same ids; all executed up to the one that ends the run, the rest answered with an error |
| `AgentLoop.AnsweredGrows` | internal/agent/agent.go:175-189 | a fully answered conversation stays so, and its calls and answers are those before and the new ones |
| `AgentLoop.Session.Run` | internal/agent/agent.go:98-210 | for every provider: each request is the one before with the reply and its answers, inside the input budget; the executed calls are those of the conversation in order and put the store through exactly their calls; checks, time and turns stay in budget and nothing is executed after one ends; it stops only for a stated reason, and is complete exactly on a reply without calls or a last turn of reports only |
| `AgentLoop.RanBound` | internal/agent/tools.go:146-156 | in every log of executed calls the checks that ran stay in their budget |
| `AgentLoop.BytesBound` | internal/agent/agent.go:87-94 | and what they printed stays in the input budget until one ends the run |
| `Ledger.GithubStatus` | internal/engagement/github.go:64-93 | the worst read decides, in whatever order; the reason and the first refusal with it |
| `Ledger.ReadGave` | internal/engagement/github.go:68-74 | which read gives inventory and which is refused |
| `Ledger.ReadStopped` | internal/engagement/github.go:75-84 | which read a limit stopped and which was not available |
| `Ledger.MoreReadsNeverBetter` | internal/engagement/github.go:64-93 | more reads never improve a status, but for an inventory not yet seen |
| `Ledger.Book.RecordShortfall` | internal/engagement/github.go:52-58 | a root not collected gets one entry in the list of its state |
| `Ledger.Book.Collect` | internal/engagement/github.go:19-49 | Recon adds a root in exactly one state, its entry saying what the root says |
| `Ledger.Book.Judge` | internal/engagement/github.go:165-182 | the worse of Recon's and Check's status stands; no entry is counted twice |
| `Ledger.Book.Check` | internal/engagement/github.go:148-203 | Check keeps every root in exactly one state and never improves a status; an unwritten mirror audit fails the root |
| `Ledger.Book.FollowUpRefused` | internal/engagement/followup.go:275-286 | the root ends refused with one entry |
| `Ledger.Book.FollowUpStopped` | internal/engagement/followup.go:290-298 | only a collected root becomes incomplete |
| `FollowUps.CapHolds` | internal/engagement/followup.go:173-197 | at most the cap of requests is sent or reused |
| `FollowUps.NothingAfterStop` | internal/engagement/followup.go:173-210 | once stopped nothing is asked, and every later pair says what stopped it |
| `FollowUps.OneRefusal` | internal/engagement/followup.go:198-207 | at most one pair is refused |
| `FollowUps.UrgencyOrdered` | internal/engagement/followup.go:163-172 | the round's order is total and transitive |
| `FollowUps.FiredFirst` | internal/engagement/followup.go:163-172 | in a round, fired logins come first |
| `FollowUps.RoundOrder` | internal/engagement/followup.go:163-172 | in a round fired logins come first, then who left last, then by handle, login and repository |
| `FollowUps.KeyTells` | internal/engagement/followup.go:126-128 | a pair's key tells its repository and its login |
| `FollowUps.OpenRound` | internal/engagement/followup.go:142-172 | the round is the open pairs not attempted, sorted |
| `FollowUps.Attempt` | internal/engagement/followup.go:173-208 | what one pair comes to, and what the run remembers of it |
| `FollowUps.RunRound` | internal/engagement/followup.go:173-210 | every pair of the round is attempted once, in order |
| `FollowUps.AskRounds` | internal/engagement/followup.go:136-211 | the loop ends for every re-judging over finitely many pairs; in every round each pair open at its start is attempted by its end, the most urgent first, and no pair twice when keys are distinct in a round |
| `FollowUps.FollowPermissions` | internal/engagement/followup.go:136-220 | the same, and each root ends refused, short or as it was, never better, the ledger still exact |
| `Discovery.Candidates.Add` | internal/engagement/discover.go:234-247 | each name has one candidate, with every source once, the latest end and any declaration |
| `Discovery.Candidates.Ordered` | internal/engagement/discover.go:263-280 | every candidate once, in the order |
| `Discovery.OrderUnique` | internal/engagement/discover.go:251-280 | the order is total, so the list does not depend on map order |
| `Discovery.OrderMeans` | internal/engagement/discover.go:251-280 | declared names first, then names of unexpired certificates, the latest end first, and by name |
| `Discovery.LookUp` | internal/engagement/discover.go:322-372 | one entry per candidate in order, each exactly right; at most 1000 looked up and 200 unverified read; what the statuses say is `Discovery.StatusExactly` |
| `Discovery.StatusExactly` | internal/engagement/discover.go:383-458 | for every name looked up, each status exactly, on the lookup's outcome and chain, the control label's answer and what is known of the resolver |
| `Discovery.LookedExactly` | internal/engagement/discover.go:322-372 | which names are looked up and which are read, with both caps |
| `Discovery.DeclaredNotCrowdedOut` | internal/engagement/discover.go:322-334 | a declared name is cut only if every name looked up was declared |
| `Discovery.RewriterProvesNothing` | internal/engagement/discover.go:347-419 | a resolver that invents answers makes no name dangle and no unproved name read |
| `Binding.Placeholder` | internal/check/bind.go:23-29 | a token binds a name exactly when it is wholly that name in braces |
| `Binding.ValidateOne` | internal/check/invariants.go:137-226 | no violation exactly when every hole is a declared param, every param has one hole, the rest is literal, and the parser, extraction and binary rules hold |
| `Binding.Validate` | internal/check/invariants.go:114-135 | no violation exactly when all checks pass, one canary exists and the baseline tier fits |
| `Binding.Bind` | internal/check/bind.go:42-70 | the substituted argv, or an error |
| `Binding.ValueLiteral` | internal/check/bind.go:73-111 | a value of any kind is over the literal alphabet and not empty |
| `Binding.PathValues` | internal/check/bind.go:97-111 | a path value is absolute, over the path alphabet, and no segment of it is the parent |
| `Binding.Alphabets` | internal/check/bind.go:14-20 | the characters of literals, paths and identifiers |
| `Binding.BindAccepts` | internal/check/bind.go:42-111 | for a valid check, accepted exactly when the params are the declared ones with values of their kinds |
| `Binding.BindSound` | internal/check/bind.go:42-70 | length and literals kept, every token over the literal alphabet, each param in exactly one place |
| `Binding.BindInjective` | internal/check/bind.go:42-70 | two bindings with equal argv are equal |
| `Binding.UnusedParamCollides` | internal/check/invariants.go:222-226 | a param without a hole would break that |
| `Binding.BinaryViolations` | internal/check/invariants.go:241-269 | no violation exactly when no argument is a denied token or prefix and the verb is allowed |
| `BoundArgv.BindKeepsVerb` | internal/check/invariants.go:241-269 | binding cannot change the verb: it is the template's and an allowed one |
| `BoundArgv.Realized` | internal/check/bind.go:42-70 | holes take their values independently: every instance of the template is what some binding gives |
| `BoundArgv.BoundFitsExactly` | internal/check/invariants.go:228-269 | every argv Bind accepts obeys the rules of its binary, if and only if no value of argv[0] is a denied binary and, for a ruled one, no argument can take a denied token or prefix and the verb is allowed whatever the holes hold |
| `BoundArgv.PassedFitsExactly` | internal/check/invariants.go:228-269 | for a check that passed validation and names its binary outright: exactly when no hole of a ruled binary can take a denied token or prefix |
| `BoundArgv.IdentMutates` | internal/check/invariants.go:241-252 | an identifier can be a denied value exactly when a denied token is an identifier or a denied prefix begins one |
| `BoundArgv.FindMayDelete` | internal/check/invariants.go:241-252 | for one: find {x} with an identifier passes validation and binds to find -delete |
| `BoundArgv.HoleMayRemove` | internal/check/invariants.go:228-240 | and {x} with the value rm passes and binds to rm |
| `Resume.KeptFreshExactly` | internal/engagement/resume.go:573-576 | the saturating subtraction decides exactly the seven-day window |
| `HostFiles.FileNameInjective` | internal/engagement/stages.go:1478-1485 | different host assets, named by declared names or by host ids, have different file names |
| `HostFiles.HostFilesApart` | internal/engagement/resume.go:504-505 | so no host's envelope or record is another host's, and no envelope stands where a record does |
| `Resume.StepKeeps` | internal/engagement/stages.go:319-340 | every effect, death, resume and change to other files keeps: a record hash in run.json is of one call's record, which names that call's envelope |
| `Resume.RunKeeps` | internal/engagement/resume.go:391-461 | so does every run of sessions |
| `Resume.KeptSound` | internal/engagement/resume.go:499-540 | in every run, a kept pair was written by one recordHost call, under the same inputs, complete, begun less than seven days before |
| `Resume.CallsOnlyGrow` | internal/engagement/resume.go:544-557 | calls are never taken back |
| `Resume.AgeNeverStretches` | internal/engagement/resume.go:499-576 | chains of resumes never stretch the age of a kept pair |
| `ResumeCalls.StageInRun` | internal/engagement/resume.go:544-557 | how far a call is inside any run: what is on disk, in run.json and in memory after each effect |
| `ResumeCalls.CutKeepsNothing` | internal/engagement/resume.go:499-557 | in every run, after a session died between the first and the last effect of recordHost, no later state keeps anything of that call: at most the pair of an earlier call with the same envelope, and nothing if there was none, until an event touches the two files |
| `ResumeCalls.CompletedIsKept` | internal/engagement/resume.go:499-557 | in every run, a completed call is kept by every session resumed later within the window, whatever hosts and stage files came in between, if nobody touched its two files |
| `ResumeCalls.OtherHostSpares` | internal/engagement/resume.go:544-557 | recording another host touches neither file |
| `ResumeCalls.StageFileSpares` | internal/engagement/stages.go:319-340 | nor does any file a stage writes |
| `Resume.MayDieAnywhere` | internal/engagement/stages.go:319-340 | any state between two effects may be a session's last |
| `Resume.RunDir.OpenManifest` | internal/engagement/resume.go:391-413 | a session starts from the manifest on disk, and is recorded |
| `Resume.RunDir.SaveManifest` | internal/engagement/resume.go:415-421 | one atomic replace |
| `Resume.RunDir.Write` | internal/engagement/stages.go:319-340 | the file, its hash in memory, then run.json, each a state of the run |
| `Resume.RunDir.RecordHost` | internal/engagement/resume.go:544-557 | envelope then record, the record naming that envelope |
| `Resume.RunDir.KeptHost` | internal/engagement/resume.go:499-540 | the pair the conditions allow, from one call and young enough |
| `Resume.FreshRequests` | internal/engagement/resume.go:597-613 | exactly the young successes stay as they were; every other is counted once by its reason |

## Left out

- Handles.CandidateHandle: the used set holds at most as many names as the machine's integer counter can number.
- LocatorRoundTrip.RoundTrip: texts are byte strings, one char a byte; the SSH user, the written form and a Workspace organizational unit are not part of the locator; lowercasing is of ASCII letters; the text form of addresses is a parameter under laws that `LawfulExists` shows to be satisfiable.
- FindingStore.Validate: the wording of its errors.
- Rules.AnyLine: regular expressions are a test per line; case folding and blanks, here and in the parsers, are those of ASCII.
- Resume.KeptSound: sha256 is taken as injective and the JSON encodings as injective on values; run.json itself is not changed by anyone else.
- AgentLoop.Session.Exhaust: which budget it was, and its wording.
- AgentLoop.Session.Run: a provider is a function of the conversation, a check's result of how many ran and of what was asked; token usage, streaming and the size check of a request are only their outcomes.
- Ledger.Book.Collect: assets have distinct ids; assets other than GitHub roots are seen only as entries that stay as they were.
- FollowUps.AskRounds: what re-judging opens is an arbitrary function over a finite set of pairs.
- Evaluation.MatchExactly: that a cut never splits a redaction marker, so a last line that could still become one may stand where the model says it need not.
- Evaluation.FiringExactly: a rule whose second check is its first.
- BoundArgv.BoundFitsExactly: bounds of integer params are machine integers, as the source's type says.
- Spellings.UrlSpellings: other texts url.Parse reads as the same url, such as a name in capitals, leading zeros in a port or an empty fragment.
- Spellings.HostSpellings: a name in capitals.
- LoginShells.ShellDecides: one account a listing; names and statuses are lowercase letters, shells those with slashes and hyphens.
- KeyLines.KeyDecides: one line, of two lowercase words.
- Binding.ValidateOne: the tables of binaries are a parameter, and whether an extraction is a regular expression with one group is an input.
- The gate, the network collectors, SSH, the runner, file modes and locks.
- Captures.ParseRecords: the softwareupdate shape, which reads a version from the next line.
- Captures.TruncatedFragment: the same shape, whose last record a cut may change.
- Rules.TypedAppended: the same shape, whose last record the next line may change.
- FieldOutside, the record parsers other than accounts and password status, excerpts and user ids in the account join.
- Scope reuse on resume, edited-file notes, egress merging and request files beyond their age.
- The order of wildcard certificates, what names point at, and certificate transparency parsing in discovery.
- Usage prices, time zones and calendar dates; instants are integers.
- Command line, interview, reports, notes and the bounded research arm.
