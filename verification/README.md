# Verified model of the Gent release tooling

This project models the logic at the heart of Gent's release and evidence tools and proves what those tools rely on:

- the Ed25519 release signer, from its extended-coordinate point formulas up to "every signature verifies";
- publishing, selecting, restoring and rolling back runtime generations, as a step system of any number of processes
  that may crash between any two file-system effects;
- the tree digest that identifies a generation, and the release names that carry it;
- the provider-contract checker: the schema flattener over cyclic references and the snapshot comparison;
- the semantic checks on driver transcripts;
- reassembly of provider output from chunks, and the capture bounds;
- systemd argument quoting, HKDF key derivation, signed package policies, and merging of packaged components.

`dafny verify dfyconfig.toml` checks everything.

## How the files fit together

| files | subject |
|---|---|
| `ModArith`, `PrimeField`, `Identities`, `Edwards`, `EdwardsGroup`, `Groups` | congruences, inversion modulo a prime with Fermat's little theorem, integer polynomial identities, the twisted Edwards curve for any modulus and coefficient, its group laws, n-fold sums in any commutative group |
| `Bits`, `Bytes`, `PointEncoding`, `Signer`, `Ed25519` | binary digits, byte encodings, compressed points, the signer over any suite, and its concrete constants |
| `ReleaseName`, `Numerals`, `TreeDigest` | release names and versions; decimal numerals and the numbers in a name; the framed digest of a tree |
| `InstallProtocol`, `InstallInvariant`, `InstallSafety`, `InstallRun` | the step system, its invariant, the safety theorems, and the runs that nothing disturbs: an installation, a rollback, a restoration |
| `SchemaWalk`, `SchemaEquations`, `SchemaTrails`, `FieldTree`, `FieldTreeExamples` | the schema flattener, its equations in terms of the JSON alone, what it records said by trails, the printed field tree, and particular documents |
| `Flattening`, `ContractDiff`, `ContractReports` | tables of leaves, the snapshot comparison, and what each of its lines stands for |
| `Splitting`, `TextOrder` | splitting and joining at a mark; strings in code point order, sorted sets, and lines of joined strings |
| `Transcript`, `TranscriptRuns`, `TranscriptRules` | the transcript state, theorems over whole transcripts, and acceptance said of the events alone |
| `LineReader`, `Chunking`, `Compaction`, `CaptureEvents` | bounded capture and line reassembly, when the cut into chunks matters, following a compaction, and which provider events count |
| `ServiceUnit`, `Hkdf`, `PackagePolicy`, `PolicyGrammar`, `MergeComponents` | four smaller cores, and the grammar of what a package policy accepts |
| `Options` | the option type |

Code of the repository that changes state step by step is a class or a method with loops here, proved against a function
of its inputs; the theorems are about those functions. The install protocol is a step system because its point is the
interleaving: each action is one effect (create a directory, write the staging link, replace the current link, rename a
stage into place) or one decision, and `Fault` and `Kill` may strike between any two.

Definitions that many theorems share are pinned by statements that do not use them: numbers by their bits and numerals,
references and leaves by the text and the JSON they stand for, findings by the leaves that come and go, transcripts by
rules about earlier events, package policies by a grammar.

What is taken as given is always a named hypothesis. For the signer: the modulus is prime (`IsPrime`), the curve
coefficient is not a square (`NonSquare`), addition is associative up to projective equality (`AssociativeCurve`), and
the base point has the stated order. Inversion by exponentiation, closure, completeness of the addition formula,
commutativity, the identity, agreement of doubling with addition, and independence of the chosen representatives are
proved. SHA-256, SHA-512, HMAC, JSON parsing and case folding are function parameters; properties that need a
collision-free hash name the colliding pair in their conclusion.

Places where the code and the obvious expectation part ways are stated exactly, each as an if-and-only-if:

- A printed field tree joins kinds with bars and shows the root as `/`. What is read off it is what was recorded
  exactly when no reachable kind contains a bar and no property with an empty name at the root has a kind
  (`FieldTree.TreeReadable`); `FieldTreeExamples.SameTreeExample` is two documents that record different kinds and
  print the same tree. Even someone who knows the recorded paths finds each with its own kinds exactly when no kind
  contains a bar and the root's kinds, if there are any on both sides, do not differ from those of such a property
  (`FieldTree.TreeFound`); `FieldTreeExamples.ClashExample` and `FieldTreeExamples.BarExample` fail. A kind that is
  not a string makes printing raise (`FieldTree.FieldTree`).
- Flattening forgets whether names came from a list or from a dictionary of `true`: two values flatten to the same
  table exactly when their normal forms are the same (`Flattening.FlattenExactly`). Leaves are compared with Python's
  `==`, for which `true` is 1 and `false` is 0: two values flatten to equal tables exactly when their normal forms are
  equal once `true` and `false` are read as numbers, here and inside lists and dictionaries
  (`Flattening.AlikeExactly`). A list of names may so become a dictionary that gives each of them 1, and nothing is
  reported (`ContractDiff.OneForTrueUnseen`).
- Loading drops a file that is one leaf at the very top, such as a list of objects (`ContractDiff.LoadExactly`).
  Nothing is reported while a file is such a leaf, or absent, on both sides (`ContractDiff.TopLevelUnseen`); one that
  turns into a dictionary with entries, or into a list of names, is compared like a new file.
- The snapshot comparison lets pass every difference in `frames.json` that is not a subtype, and error output of a
  launch probe that is gone or empty. `ContractDiff.EmptyExactly` says, file by file, what has to be equal for nothing
  to be reported.
- Past its limit, what an interrupt capture has seen may depend on how the stream was cut into chunks.
  `Chunking.ChunkingExactly` says for which streams it does not. Where every read but the last is full, as from a
  buffered pipe, it never does: the whole chunks within the limit are looked into (`Chunking.FullReadsFlags`).
- A path's slashes count its levels only where property names hold none (`SchemaTrails.DepthBound`,
  `SchemaTrails.SlashBound`).

The rejection in the transcript checker's `finish` can never happen (`TranscriptRuns.FinishAccepts`).

## Model

| member | source | states |
|---|---|---|
| Edwards.AddClosed | tools/sign-runtime-release.py:127-133 | the sum of two extended points that satisfy the curve equation and X·Y = Z·T satisfies both again, for every modulus and coefficient (section 5.1.4 of RFC 8032) |
| Edwards.DoubleClosed | tools/sign-runtime-release.py:136-140 | doubling keeps the curve equation and X·Y = Z·T |
| Edwards.DoubleIsAddSelf | tools/sign-runtime-release.py:127-140 | on the curve, adding a point to itself gives -4 times the doubling formula's result, coordinate by coordinate |
| EdwardsGroup.DenominatorNonzero | tools/sign-runtime-release.py:127-133 | completeness: for a non-square coefficient neither denominator of an addition vanishes, so the formula needs no special cases |
| EdwardsGroup.AddValid | tools/sign-runtime-release.py:127-133 | sums of valid points are valid points with non-zero Z |
| EdwardsGroup.DoubleValid | tools/sign-runtime-release.py:136-140 | doubling a valid point gives a valid point that is projectively the sum of the point with itself |
| EdwardsGroup.AddRespectsSame | tools/sign-runtime-release.py:127-133 | the sum depends only on the points, not on the projective representatives |
| EdwardsGroup.CurveLaws | tools/sign-runtime-release.py:127-140 | the two formulas form a commutative group up to projective equality, given associativity |
| PrimeField.PrimeIsField | tools/sign-runtime-release.py:155 | modulo every prime, raising to the power p - 2 inverts whatever does not vanish, by Fermat's little theorem |
| Groups.Group.DoubleAndAddIsTimes | tools/sign-runtime-release.py:143-150 | in any such group, double-and-add from an accumulator adds the n-fold sum |
| Groups.Group.TimesAffineModulo | tools/sign-runtime-release.py:184 | an n-fold sum of an affine combination may be reduced modulo the order |
| PointEncoding.EncodePoint | tools/sign-runtime-release.py:153-159 | the in-place byte buffer ends as the specified encoding |
| PointEncoding.EncodeValue | tools/sign-runtime-release.py:153-159 | read back as an integer the encoding is y below bit 255 and the parity of x in bit 255 (section 5.1.2 of RFC 8032) |
| PointEncoding.AffineOnCurve | tools/sign-runtime-release.py:153-156 | the encoded affine coordinates satisfy the curve equation |
| PointEncoding.EncodeIdentifies | tools/sign-runtime-release.py:153-159 | two valid points have the same bytes exactly when they are the same point |
| Signer.ScalarMultiply | tools/sign-runtime-release.py:143-150 | the loop computes the specified multiple, and result and running point stay on the curve throughout |
| Signer.MultiplyIsTimes | tools/sign-runtime-release.py:143-150 | for every scalar the result is the scalar-fold sum of the base point |
| Signer.ClampBits | tools/sign-runtime-release.py:166-167 | bit by bit: three low bits cleared, bit 254 set, bits between kept, none above (section 5.1.5 of RFC 8032) |
| Signer.ClampRange | tools/sign-runtime-release.py:177-179 | secret scalars are multiples of 8 in [2^254, 2^255) |
| Signer.SigningEquation | tools/sign-runtime-release.py:181-184 | S·B = R + k·A for every nonce, challenge and secret |
| Signer.SignatureVerifies | tools/sign-runtime-release.py:175-184 | every signature passes the verification condition of section 5.1.7 of RFC 8032 against the derived public key, with the verifier's own hash of R, public key and content |
| Signer.PublicKeyIs | tools/sign-runtime-release.py:163-168 | the public key is the encoded s-fold sum of the base point, for the number s whose bits are those of the first half of the seed's hash but for those that section 5.1.5 of RFC 8032 fixes |
| Signer.SignatureIs | tools/sign-runtime-release.py:175-184 | R and S as section 5.1.6 of RFC 8032 defines them: the nonce is the hash of the last half of the seed's hash and the content, and S the nonce plus the hash of R, public key and content times the secret scalar, modulo the order |
| Signer.HalvesApart | tools/sign-runtime-release.py:163-182 | the public key depends on the first half of the seed's hash only, and the commitment on the hash of its last half and the content |
| Ed25519.SuiteWellFormed | tools/sign-runtime-release.py:24-29 | the signer's constants: the base point is on the curve, encodings fit, -1 has a square root |
| Ed25519.ConstantsAre | tools/sign-runtime-release.py:24-28 | the modulus is 2^255 - 19, the order 2^252 + 27742317777372353535851937790883648493, and the base point has y = 4/5 and an even x |
| Ed25519.BaseProduct | tools/sign-runtime-release.py:29 | the base point's fourth coordinate is the product of its first two, reduced |
| Ed25519.CurveDIsQuotient | tools/sign-runtime-release.py:26 | the coefficient is the signer's expression -121665/121666 |
| Ed25519.SignatureVerifiesOnEd25519 | tools/sign-runtime-release.py:175-184 | verification of every signature, for the signer's own constants |
| Ed25519.SignatureIsOnEd25519 | tools/sign-runtime-release.py:175-184 | public key, R and S of every signature, for the signer's own constants |
| ReleaseName.PartsExact | tools/activate_install_support.py:87-93 | the parser accepts exactly the grammar of release names, and returns its version and target |
| ReleaseName.GenerationKeepsParts | tools/activate_install_support.py:98-100 | a generated name is accepted and keeps version, target and version order, whatever marks the target contains; its qualifier is the start of the digest and the identifier |
| ReleaseName.VersionTotal | tools/activate_install_support.py:95-96 | versions are totally ordered, and equal when ordered both ways |
| ReleaseName.VersionTrans | tools/activate_install_support.py:116-120 | the version order used to reject newer selections is transitive |
| Numerals.NumeralIs | tools/activate_install_support.py:96 | every numeral is some zeros and the decimal numeral of the number it is read as |
| Numerals.DecimalPrinted | tools/activate_install_support.py:96 | reading the decimal numeral of a number gives the number |
| Numerals.VersionPrinted | tools/activate_install_support.py:95-96 | a name that prints one, two or three numbers, with or without a qualifier, has exactly these numbers as its version |
| Numerals.VersionLeIs | tools/activate_install_support.py:118 | one version is not after another exactly when it begins it or is smaller in the first number where they differ |
| TreeDigest.WalkEntries | tools/activate_install_support.py:63-78 | the walk refuses exactly trees with special nodes or over the limits, and otherwise collects the regular files |
| TreeDigest.DigestedExactly | tools/activate_install_support.py:63-78 | a tree has a digest exactly when it holds only regular files and directories whose mode bits 9 to 11 are clear, at most 20000 files and at most 8 GiB of contents |
| TreeDigest.TreeDigest | tools/activate_install_support.py:79-85 | the incrementally updated hash is the hash of one framed stream, which `TreeDigest.StreamExactly` describes |
| TreeDigest.OrderIrrelevant | tools/activate_install_support.py:66-80 | every enumeration of a tree gives the same digest, or the same refusal |
| TreeDigest.FramesRoundTrip | tools/activate_install_support.py:80-84 | the hashed stream decodes uniquely to the list of path, file digest and permission bits |
| TreeDigest.StreamExactly | tools/activate_install_support.py:79-85 | what is hashed is the format's name, a zero byte, and frames that read back as one entry for each regular file, with its path, the hash of its content and mode bits 0 to 8, in ascending byte order of the paths |
| TreeDigest.LessIs | tools/activate_install_support.py:80 | the order of paths: a beginning first, and otherwise the first byte that differs decides |
| TreeDigest.DigestIdentifies | tools/activate_install_support.py:63-85 | equal digests mean the same regular files, by path, content and each of the nine permission bits, or exhibit a hash collision |
| TreeDigest.FilesDetermineDigest | tools/activate_install_support.py:75-85 | trees whose regular files agree on paths, contents and the nine permission bits have the same digest, whatever directories surround them |
| InstallInvariant.StepKeeps | tools/activate-install.py:95-255 | every action of every process, including errors and kills, keeps the protocol invariant |
| InstallSafety.StepKeepsReleases | tools/activate-install.py:107-110 | no step in any state changes or removes a published tree |
| InstallSafety.RunKeepsReleases | tools/activate-install.py:95-129 | a published tree is there, unchanged, after every run |
| InstallSafety.CurrentAlwaysWhole | tools/activate-install.py:114-129 | at every crash point the current link is absent or names a whole published generation |
| InstallSafety.OnlyHolderChangesStore | tools/activate_install_support.py:130-163 | whoever publishes, links or selects is the one holder of the store lease, and holds the data directory's lease against daemons |
| InstallSafety.HolderNotOlder | tools/activate_install_support.py:116-120 | at every point inside the lease the selection is no older than when the lease was taken, unless it is an authorised rollback |
| InstallSafety.NotOlderIs | tools/activate_install_support.py:116-120 | not being older, in numbers: of two names that print numbers, the first is not newer exactly when its numbers begin the other's or are smaller in the first place where they differ; no selection is older than any |
| InstallSafety.NotOlderThree | tools/activate_install_support.py:116-120 | for versions of three numbers: major, then minor, then patch, as numbers |
| InstallSafety.VersionNeverDecreases | tools/activate-install.py:191-255 | over every interleaving the selection seen with the lease free never gets older, except at the end of a rollback that named the still-selected generation and restored the promised digest |
| InstallSafety.FreeSelectionNeverOlder | tools/activate-install.py:191-255 | between two moments with the lease free and no authorised rollback between them, the selected version has not gone down |
| InstallSafety.SelectedNumbersNeverDrop | tools/activate-install.py:191-255 | the same in the numbers that the two selected names print |
| InstallSafety.UnforcedChangesNothing | tools/activate-install.py:240-241 | an installer without --force publishes, links and selects nothing in a store that had a selection when it took the lease |
| InstallSafety.OlderInstallStops | tools/activate-install.py:227-228 | an installer asked for an older version than the selected one can only end, without making a private directory |
| InstallSafety.LeaseRefused | tools/activate_install_support.py:150-156 | without a data directory where something is selected, or with one that someone holds, no process gets a lease |
| InstallSafety.SuccessSelects | tools/activate-install.py:242-253 | a successful run selected an immutable generation of what was asked for, with the captured and promised digest, or did not move the link when only staging |
| InstallSafety.FailureRestores | tools/activate-install.py:168-189 | a failed run leaves the previously selected tree selected, by digest, unless the restoration itself was refused or failed; then the link names the whole generation that was asked for |
| InstallSafety.RechecksPass | tools/activate-install.py:114-129 | published trees never change, so the digest checks before and after the move always pass; only a staging link left behind stops a selection |
| InstallSafety.NoStageSurvives | tools/activate-install.py:89-93 | when a run ends by itself, no private directory it created is left |
| InstallSafety.SupervisorRollback | tools/supervise-runtime-activation.py:176-194 | whatever ran in between, the previous release still has the digest the supervisor captured, and a successful rollback selects a tree with it |
| InstallRun.UndisturbedInstall | tools/activate-install.py:224-255 | an installation nothing stands in the way of succeeds, publishes the tree under its fresh name, selects it and leaves locks, links and stages as they were |
| InstallRun.UndisturbedRollback | tools/activate-install.py:191-222 | a supervisor's rollback nothing stands in the way of succeeds, copying the previous release first where it has no name of its own, and selects a tree with the promised digest |
| InstallRun.UndisturbedRestoration | tools/activate-install.py:168-189 | from every reachable state in which the handler is entered, an undisturbed restoration ends with the former tree selected, none where there was none, and does not fail |
| InstallRun.FailedSelection | tools/activate-install.py:246-252 | one failure at any point of a guarded selection whose former release could be read, with nothing else going wrong, ends with the former tree selected |
| SchemaWalk.FollowingSpends | tools/provider_contract_schema.py:31-38 | the termination measure: following a reference strictly shrinks the names not yet on the stack |
| SchemaWalk.FieldTable.Walk | tools/provider_contract_schema.py:28-55 | the walk raises exactly when specified, adds exactly the specified pairs in whatever order properties come, and otherwise only part of them |
| SchemaWalk.FieldTable.Merge | tools/provider_contract_schema.py:24-25 | adds one pair to the table, and fails exactly on values that cannot be in a set |
| SchemaEquations.NodeRecords | tools/provider_contract_schema.py:39-55 | a node that is no reference records exactly its own kinds (enumeration, constant, listed types) and what its variants, properties, items and further properties record at their paths and depths |
| SchemaEquations.NodeFails | tools/provider_contract_schema.py:39-55 | such a node raises exactly when one of its fields is malformed or one of its subschemas raises |
| SchemaEquations.ReferenceRecords | tools/provider_contract_schema.py:31-38 | a node with a textual reference, whatever else it holds, counts as what it refers to, is recorded by name when that is being followed, and raises when it leads nowhere |
| SchemaEquations.NothingRecorded | tools/provider_contract_schema.py:29-30 | anything but an object, or more than six levels down, records and raises nothing |
| SchemaEquations.FalsyExactly | tools/provider_contract_schema.py:48 | what counts as false: null, false, 0 and the empty text, list and object |
| SchemaTrails.RecordedIsReachable | tools/provider_contract_schema.py:28-55 | what is recorded is exactly what a trail of at most MAX_DEPTH levels that repeats no reference leads to |
| SchemaTrails.DepthBound | tools/provider_contract_schema.py:29 | every recorded path is the root's path and the segments of a trail of at most MAX_DEPTH levels that leads to its kind; its slashes are one for each level and those inside the names |
| SchemaTrails.SlashBound | tools/provider_contract_schema.py:29 | where no property name holds a slash, no recorded path has more than MAX_DEPTH slashes below the root |
| FieldTree.FieldTree | tools/provider_contract_schema.py:58-63 | raises exactly when the walk raises or records a kind that is no string, and otherwise prints for every path the sorted, joined kinds, the root as "/" unless a property with an empty name takes that place |
| FieldTreeExamples.RefNameIs | tools/provider_contract_schema.py:33 | a reference is named after what follows its last slash |
| FieldTreeExamples.ReferencePartsAre | tools/provider_contract_schema.py:18 | a reference is resolved by its parts between slashes, with or without the leading mark |
| FieldTreeExamples.DefinitionsExample | tools/provider_contract_schema.py:31-38 | for any two slash-free names, a definition whose property refers to another one records and prints that one's type |
| FieldTreeExamples.CycleExample | tools/provider_contract_schema.py:34-36 | two definitions that refer to each other record the name the walk comes back to, two levels down |
| FieldTreeExamples.NestWalk | tools/provider_contract_schema.py:29-52 | a type inside n properties is recorded at their joined names exactly when it is at most six levels down |
| FieldTree.TreeReadable | tools/provider_contract_schema.py:63 | what is read off the printed tree alone is exactly what was recorded, if and only if no reachable kind contains a bar and no property with an empty name at the root has a kind |
| FieldTree.TreeFound | tools/provider_contract_schema.py:63 | every recorded path, looked up in the printed tree, has a line that gives back its own kinds exactly when no reachable kind contains a bar and the root does not clash with a property with an empty name |
| FieldTree.NamedNoClash | tools/provider_contract_schema.py:50-51 | in a document without empty property names no such property has a kind, and there is no clash |
| FieldTreeExamples.ClashExample | tools/provider_contract_schema.py:63 | a walk that succeeds and whose printed tree loses the root's kind |
| FieldTreeExamples.SameTreeExample | tools/provider_contract_schema.py:63 | two documents whose walks succeed and record different pairs, and whose printed trees are the same |
| FieldTreeExamples.BarExample | tools/provider_contract_schema.py:43-49 | a constant beside a type, and an enumeration of the two, record different kinds and print the same line |
| TextOrder.LineReadable | tools/provider_contract_schema.py:63 | a joined line gives back its set exactly when no member contains a bar |
| TextOrder.LineDetermines | tools/provider_contract_schema.py:63 | two sets of kinds without bars are printed as one line only if they are the same set |
| Flattening.Flatten | tools/provider_contract_diff.py:10-22 | filling one table recursively loses and overwrites nothing, in whatever order entries come |
| Flattening.LeavesAre | tools/provider_contract_diff.py:10-22 | the table holds exactly the leaves reached by entering dictionaries key by key, and a mark for each item of a list of names |
| Flattening.FlattenExactly | tools/provider_contract_diff.py:10-22 | two values flatten to the same table exactly when their normal forms, lists of strings read as dictionaries of true, are the same |
| Flattening.AlikeExactly | tools/provider_contract_diff.py:90 | the leaves of two values are equal, true being 1, exactly when their normal forms are equal in the same sense |
| Flattening.NamesAlike | tools/provider_contract_diff.py:18-21 | a list of names and the dictionary that gives each of them 1 flatten to equal leaves |
| Flattening.LeavesForget | tools/provider_contract_diff.py:18-21 | of a list of strings exactly the set of its items is kept, and it flattens like their dictionary of true |
| ContractDiff.NothingLost | tools/provider_contract_diff.py:38-101 | every difference, leaves being compared with true equal to 1, is reported, or let pass, or suppressed by an anchor that is itself a reported difference |
| ContractDiff.EmptyTables | tools/provider_contract_diff.py:85-102 | nothing is reported exactly when the flattened tables are equal, true being 1, up to the two kinds of difference let pass |
| ContractDiff.LoadExactly | tools/provider_contract_diff.py:25-29 | two files load the same table exactly when neither has anything below its top, or their normal forms are the same; and equal tables exactly when their normal forms are equal, true being 1 |
| ContractDiff.EmptyExactly | tools/provider_contract_diff.py:85-102 | nothing is reported exactly when, true being equal to 1, the frame subtypes are equal, the launch probes are equal but for error output gone or empty, and every other file has an equal normal form or nothing to compare on either side |
| ContractDiff.TopLevelUnseen | tools/provider_contract_diff.py:29 | nothing is reported about a file that is absent or one leaf at the top, before and after |
| ContractDiff.OneForTrueUnseen | tools/provider_contract_diff.py:18-21 | nothing is reported when a list of names becomes a dictionary that gives each of them 1 |
| ContractDiff.DiffSnapshots | tools/provider_contract_diff.py:85-102 | the result lists exactly the findings of all compared files, each once, in ascending order |
| ContractReports.ReportsExactly | tools/provider_contract_diff.py:38-102 | for every text: it is listed exactly when a leaf that comes, goes or changes in one of the six files calls for that line, kind by kind, and is not left to its flag, method or command |
| ContractReports.CliExactly | tools/provider_contract_diff.py:38-48 | of the command line: flags that come, go or change, other changes to flags on both sides, subcommands, and the rest |
| ContractReports.ProtocolExactly | tools/provider_contract_diff.py:32-61 | of the protocol: methods that come, by direction, or go, fields, other changes to methods on both sides, and the rest |
| ContractReports.SidesTold | tools/provider_contract_diff.py:85-101 | an arrival is only found for a leaf of the new table alone, a departure for one of the old table alone or a frame subtype that differs; and a leaf on one side alone is found as such or as a change of shape |
| Transcript.State.Handle | tools/driver-transcript-semantics.py:51-67 | one event updates the fields as specified, or is refused and changes nothing |
| TranscriptRuns.PlayExtends | tools/driver-transcript-semantics.py:83-167 | every prefix of an accepted transcript is accepted, and its state only grows: histories frozen, latest ordinals, revisions and sets monotone |
| TranscriptRuns.OrdinalsIncrease | tools/driver-transcript-semantics.py:105-116 | the turns of a run have strictly increasing ordinals, all past its frozen history |
| TranscriptRuns.Lineage | tools/driver-transcript-semantics.py:83-103 | parents come first, cleared runs have no history, and a preserving child starts between its parent's history and where the parent ends up |
| TranscriptRuns.PlanRevisionsExact | tools/driver-transcript-semantics.py:135-147 | a plan's revisions never go back and a revision has one digest |
| TranscriptRuns.GoalRevisionsAdvance | tools/driver-transcript-semantics.py:123-133 | goal revisions strictly increase |
| TranscriptRuns.AttachmentsDistinct | tools/driver-transcript-semantics.py:149-167 | attachments are distinct and declared in the manifest |
| TranscriptRuns.TurnAnnounced | tools/driver-transcript-semantics.py:160-161 | a known turn was announced by an earlier turn event |
| TranscriptRuns.OneConversation | tools/driver-transcript-semantics.py:73-81 | an accepted transcript has at most one conversation event |
| TranscriptRuns.FinishAccepts | tools/driver-transcript-semantics.py:69-71 | the closing rejection is unreachable |
| TranscriptRuns.ValidateSemantics | tools/driver-transcript-semantics.py:23-30 | validation accepts exactly the transcripts whose manifest is free of repeats and whose every event applies |
| TranscriptRules.AcceptedExactly | tools/driver-transcript-semantics.py:51-186 | a transcript is accepted exactly when each event keeps its rule, said of that event and those before it alone |
| TranscriptRules.TurnGoesHome | tools/driver-transcript-semantics.py:105-116 | a turn that names no run belongs to the run started last, and moves that run and no other |
| LineReader.BoundedReader.Drain | tools/public_driver_capture_stream.py:18-25 | whatever the chunks, the data is the first bytes of the stream up to the limit, and the total its length |
| LineReader.LinesAppend | tools/public_driver_capture_stream.py:42-45 | continuing after the unterminated tail loses and repeats no line |
| LineReader.InterruptReader.ConsumeLines | tools/public_driver_capture_stream.py:42-57 | takes every complete line, in order, and leaves exactly the tail |
| LineReader.InterruptReader.Drain | tools/public_driver_capture_stream.py:35-40 | the flags are those of the lines of everything that fitted, the pending bytes its tail |
| LineReader.FoldMeans | tools/public_driver_capture_stream.py:50-57 | each flag says that some line before the first that raises had that meaning |
| CaptureEvents.LinesExactly | tools/public_driver_capture_stream.py:42-45 | the lines and the tail are the only way to write a stream as pieces without byte 10, all but the last ended by it |
| CaptureEvents.CaptureMeans | tools/public_driver_capture_stream.py:42-57 | the flags in terms of the parsed lines: a tool use in the message's content, the cancelled result, or JSON that cannot be looked into |
| Chunking.ChunkingIrrelevant | tools/public_driver_capture_stream.py:35-40 | however a stream within the limit is cut, the flags are the fold over its lines and the pending bytes its tail |
| Chunking.ChunkingExactly | tools/public_driver_capture_stream.py:35-40 | the flags are the same for all cuts exactly for streams within the limit and for those whose last chunk's worth of bytes before the limit sets no further flag |
| Chunking.FullReadsFlags | tools/public_driver_capture_stream.py:35-40 | where every read but the last is full, the flags are those of the whole stream, or past the limit of as many whole chunks as fit |
| Compaction.ReadLinesAre | tools/public_driver_capture_stream.py:170-171 | the lines read are the stream's lines with their newlines and its unterminated tail, and joined they are the stream |
| Compaction.CompactionReader.Drain | tools/public_driver_capture_stream.py:170-193 | cuts the stream into lines and follows exactly those that fit, up to the first that raises |
| Compaction.WatchMeans | tools/public_driver_capture_stream.py:176-193 | the flags, of all lines at once: a later turn settled after the seed, a boundary came after compacting began, something failed, no session offered tools |
| CaptureEvents.CompactionMeans | tools/public_driver_capture_stream.py:176-193 | the flags in terms of the parsed lines: results, compacting status, boundary after it, failures, and sessions that offer tools |
| ServiceUnit.ReplacementsAreOneEscape | tools/linux_service_unit.py:10 | four replacements in a row are one escape per character |
| ServiceUnit.CommandRoundTrip | tools/linux_service_unit.py:6-10 | a command line is refused exactly for empty arguments or control characters, and otherwise is read back as exactly its arguments |
| ServiceUnit.CommandText | tools/linux_service_unit.py:10-21 | the text of a command line: the escaped arguments in quotes, with single spaces between them |
| Hkdf.Derive | tools/authority_keys.py:12-22 | refuses exactly lengths out of range, and otherwise returns the first bytes of T(1), T(2), … with just as many blocks as needed (sections 2.2 and 2.3 of RFC 5869) |
| Hkdf.OutputAt | tools/authority_keys.py:16-22 | every output byte is the byte of the HMAC block its position falls in |
| Hkdf.OkmExactly | tools/authority_keys.py:12-22 | the output is the beginning of every chain of MACs that sections 2.2 and 2.3 of RFC 5869 define, written out |
| Hkdf.ShorterIsPrefix | tools/authority_keys.py:22 | a shorter output is a prefix of a longer one |
| PackagePolicy.Validate | crates/gent-adapters/src/package_policy.rs:145-172 | accepts exactly bounded, unexpired policies of valid entries, no two for the same provider and Node |
| PolicyGrammar.PolicyExactly | crates/gent-adapters/src/package_policy.rs:145-195 | what is accepted, written out: texts, hexadecimal digits, version 1, one to sixteen entries of distinct provider and Node, each with some platform's package, a proper version and a proper integrity |
| PolicyGrammar.VersionExactly | crates/gent-adapters/src/package_policy.rs:196-216 | a version is three numbers of at most ten digits without leading zeros, and possibly the first dash and a suffix |
| PolicyGrammar.IntegrityExactly | crates/gent-adapters/src/package_policy.rs:218-226 | an integrity is "sha512-" and the padded base64 of exactly some 64 bytes (section 4 of RFC 4648) |
| PackagePolicy.ApprovedPackage | crates/gent-adapters/src/package_policy.rs:112-142 | approves only a fitting entry, and is unavailable exactly when no entry fits |
| PackagePolicy.OrderIrrelevant | crates/gent-adapters/src/package_policy.rs:123-130 | the order of a validated policy's entries does not matter |
| PackagePolicy.RevokedBlocks | crates/gent-adapters/src/package_policy.rs:123-126 | a revoked entry blocks every approval for its provider and Node |
| PackagePolicy.ExactlyOnePlatform | crates/gent-adapters/src/provider_platform.rs:84-122 | a valid entry is accepted by exactly one of the six platforms |
| PolicyGrammar.AcceptsExactly | crates/gent-adapters/src/provider_platform.rs:84-95 | a platform accepts the claude package named after it, and a codex version that is something, a dash and its name |
| PackagePolicy.AtMostOnePlatform | crates/gent-adapters/src/provider_platform.rs:84-95 | whatever the package and version string, no two platforms accept it |
| MergeComponents.Merge | tools/windows_sandbox_package.py:84-100 | succeeds exactly when names equal up to case folding agree and no file contradicts a pinned digest; then the members are the first inputs under each folded name, in order, and all digests are pinned |
| MergeComponents.Represented | tools/windows_sandbox_package.py:89-100 | every input is represented by a member with its name and digest |

## Left out

- Hashes and MACs: SHA-256, SHA-512 and HMAC are parameters; nothing is proved about them.
- Associativity of point addition, primality of the modulus, the coefficient being no square, and the order of the base point are hypotheses.
- Key loading, PKCS#8 parsing, manifest assembly and hexadecimal output of the signer.
- Point decoding: the verifier's side is a condition on points that encode to the given bytes.
- Python's limit on the digits of a converted integer: versions of any length are ordered.
- The Windows branches of the tree digest (reparse points, zero permission bits) and path decoding to UTF-8.
- In the install protocol: file permissions, `fsync`, launcher text and the updater's contents. Writing launchers and refreshing the updater are steps that may fail.
- A private stage whose removal itself fails is covered only as a killed process, which leaves its directories.
- A daemon is a holder of a data directory's lease; what else it does is not part of this model.
- The supervisor's health probes, time limits and recovery commands; its rollback is an activation with the arguments it passes.
- The digest of a tree is a parameter of the install protocol; `TreeDigest` says what it identifies.
- The schema walk keeps `true` and 1 apart as kinds of a path, where a Python set holds one of them; printing raises for either. Infinite numbers and NaN, which Python's JSON parser accepts, are not values here. The text of an enumeration or a constant, which sorts and joins printed values, is the `Labels` parameter.
- The direction table and method list around the field trees, and the scrapers for other providers' schemas.
- Reading snapshot files from disk.
- Provenance of transcript events (their type, data and sequence are given), and the wording of errors.
- The steering reader, whose result depends on when another thread sets a flag; process control around the readers.
- The rest of the unit file around the command line, and the checks on its directories.
- The names given to nested signing keys.
- Signature verification and encoding of package policies, and the executable path of a platform.
- What makes a packaged file ordinary, and the reviewed-provider policy of the sandbox package.
