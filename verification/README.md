# wcm: a model of the vault and proofs about it

wcm is a password vault in one file. The body (a list of items) is sealed under a random data key, the DEK. The
header holds key slots, each of which wraps the DEK under a key derived from a passphrase, a recovery key or a
Windows Hello signature. Many processes may open and save the file at once, a command may be killed at any moment,
and a shim forwards command lines from WSL to the Windows program.

This project models that behaviour in Dafny and proves what it is meant to guarantee. `dafny verify dfyconfig.toml`
checks all of it.

## The modules

| file | what it holds |
|---|---|
| `Basics`, `Chars`, `Sorting` | results and errors, character classes, stable sorting and neighbour removal |
| `Body`, `Merge`, `EnvSpecs` | the sorted item list as a finite map, import in three modes, the variables of `wcm run` |
| `Slots`, `Header`, `Vault` | wrapping and unwrapping the DEK, header framing and ids, the file and the step by step `write` |
| `Protocol`, `ProtocolTheorems` | any number of processes over one file as a transition system, and its properties over all runs |
| `Hello`, `HelloAnswers` | the Windows Hello backend over a credential API that may answer anything, and over one that is faithful; which answer ends an operation how |
| `Unlock`, `UnlockAnswers` | `open_slot` and `seal_slot` with the thread-local salt, `Vault::unlock`, `Ctx::unlock`; which slot decides and what is reported |
| `KeyCommands`, `KeyTheorems`, `KeyRuns`, `KeyLockout` | `init`, `slot add`, `slot rm`, `recover`, `rekey` as ordered effects on the world; runs with a crash anywhere |
| `KeyOutcomes` | when each of these commands succeeds and what it makes of a vault, said from its arguments and the file it found |
| `KeyRace`, `KeyProtocol` | the same commands run by many processes at once, over one file and one credential store; what they save as runs of `Protocol` |
| `Base32`, `RecoveryKey` | printing and parsing recovery keys, the normaliser in front of every typed secret |
| `WslArgs`, `WslSsh`, `WslAgree`, `WslExact`, `WslVault` | the two argument scanners of the WSL shim, when they agree, and the quick look for `--vault` |

## How the parts are modelled

- Cryptography is symbolic. A derived key is the term of all it is derived from and a ciphertext the term of all that
  was sealed (key, nonce, associated data, plaintext), so a ciphertext opens only under what it was sealed with.
  Signatures are assumed unique per key and message, as for RSASSA-PKCS1-v1_5 (section 8.2 of RFC 8017, which
  `crates/wcm-core/src/crypto/kdf.rs` relies on). Argon2 accepts the parameters of section 3.1 of RFC 9106.
- Random bytes, prompts, the checksum of recovery keys, path translation and the answers of the credential API are
  parameters; a theorem about them holds for all of them. A fresh DEK or Hello key is one that was not drawn before,
  and different Hello keys have different public keys.
- CBOR is any codec whose decoder undoes its encoder. The associated data of the body is the encoded header prefix;
  `Header.EncodeInjective` shows that it determines the header, which then stands for it.
- The file system: a rename is one step, a read sees one whole file, a dying process frees the lock, the copy to `.bak`
  may be refused or stop half way, and removing `.bak` while it is being written leaves the copy without a name.
- What the source changes in place is imperative here (`Vault.UnlockedVault.Write`, `Hello.HelloBackend`,
  `Unlock.OpenSlot`, the loops of `rekey`, `merge`, `translate_args`, `parse_ssh_action` and others); each such method
  is proved equal to a specification function, and the theorems are about that function.
- A slot command is the list of its effects on the world: create a credential, save a file, delete a credential. A
  command that fails or is killed has had the effects of some beginning of its list.

## What turned out to be false, and exactly when

- `recover` can remove the last passphrase slot. It does so exactly when it makes a Hello slot and every passphrase slot
  is labelled `hello` (`KeyLockout.PassphraseLostIff`); `KeyLockout.LockOutRun` is a run of four commands that gets
  there. With many processes at once, too, it takes a passphrase slot added under that label
  (`KeyLockout.NoLockOutAmongMany`).
- A live Hello slot can lose its credential across processes. In every interleaving the Hello slots of the file stay
  live if and only if no deletion falls between another process's enrolment of a slot and a later moment at which that
  slot is on disk (`KeyRace.HelloSlotsStayLiveIff`). `KeyRace.LostSlotRuns` gives two runs that fail: after `slot rm`
  has saved and before it deletes, another process enrols a slot with the same credential; it loses the slot both if it
  saves before the deletion and if it saves after it, when at the deletion no slot of the file needs the credential.
- `unlock` takes the key from one read and the body from another. It succeeds exactly when no `rekey` was committed in
  between (`ProtocolTheorems.UnlockReturnsOneCommit`).
- A passphrase from `WCM_NEW_PASSPHRASE` is sealed as given but normalised when typed. It reopens its slot exactly if it
  does not look like a recovery key or is the canonical display of one (`RecoveryKey.NewPassphraseReopensIff`).
- `import --replace` reports every item as added; that is the new size exactly when no name repeats
  (`Merge.ReplaceReportIsSizeIff`).
- The two argument scanners can disagree, as on `-t import ssh add NAME` (`WslAgree.ImportBeforeSsh`). They agree under
  every path translation if and only if the translator takes just the `--vault` values for paths, wherever the action
  depends on it: not where a value of `-t`, `--lifetime` or `--ssh-add` is set again later
  (`WslExact.ScannersAgreeIff`).
- `has_vault_arg` is wrong about `--slot --vault` (`WslVault.VaultAsValue`). Look for the first vault option, or value
  written apart that is `--` or reads like one. The answer is right if and only if there is none, it is the option
  itself, it is a `--` and no vault option follows, or it reads like one and a vault option does follow
  (`WslVault.HasVaultArgIff`).

## Where the documents and the code differ

The model follows the code.

- `docs/FORMAT.md` asks for unique slot ids only; `crates/wcm-core/src/vault/header.rs` also demands unique labels. The
  slot order of `unlock` needs that (`Unlock.OrderIsPermutationIff`).
- `README.md` of the repository and a comment at `crates/wcm-cli/src/commands/slot.rs:21` say that `rekey` uses
  `WCM_NEW_PASSPHRASE`; `crates/wcm-cli/src/commands/rekey.rs:31` reads `WCM_PASSPHRASE` only.

## Model

| member | source | states |
|---|---|---|
| ProtocolTheorems.NoLostUpdate | crates/wcm-core/src/vault/mod.rs:200-231 | in every interleaving of creating, opening, editing and saving processes with crashes anywhere, the commits form one chain in which each was loaded from the one before it and only the first from `create`, the file is always the latest commit whole, and never are two processes inside `write` |
| ProtocolTheorems.FileAlwaysOpens | crates/wcm-core/src/vault/mod.rs:88-100 | at every moment of every run the file opens under its own key to a complete commit whose generation is the number of commits |
| ProtocolTheorems.StaleNeverSaves | crates/wcm-core/src/vault/mod.rs:202-209 | a session loaded from a file that was replaced since never commits again, however it is edited and retried and whatever others do |
| ProtocolTheorems.LockedIsStale | crates/wcm-core/src/vault/mod.rs:204-208 | a session whose save was answered `Locked` is such a session |
| Protocol.CheckPassesIffCurrent | crates/wcm-core/src/vault/mod.rs:202-217 | the check under the lock lets pass exactly the sessions loaded from the latest commit, and answers `Locked` to the others |
| Protocol.ExecKeepsInv | crates/wcm-core/src/vault/file.rs:42-98 | every step of every process keeps files, sessions, lock, backup and history consistent |
| ProtocolTheorems.SameKeyIffNoRekey | crates/wcm-cli/src/commands/rekey.rs:115-116 | two commits are sealed under the same key if and only if no `rekey` lies between them |
| ProtocolTheorems.UnlockReturnsOneCommit | crates/wcm-core/src/vault/mod.rs:108-154 | `unlock` succeeds if and only if no `rekey` was committed between its two reads, and then returns the latest commit whole, with its own key and generation |
| ProtocolTheorems.EverySlotYieldsTheKey | crates/wcm-core/src/vault/mod.rs:133-146 | whichever slot of the header read first is opened, it yields the key of the commit that header belongs to |
| ProtocolTheorems.RevokedBackupsStayGone | crates/wcm-cli/src/context.rs:139-151 | once a save that drops the backup has removed it, in every continuation the backup is absent, partial or a copy of that generation or a later one, although the removal is outside the lock |
| ProtocolTheorems.RevokedKeysStayOutOfBackups | crates/wcm-cli/src/context.rs:134-151 | after a `rekey` has dropped the backup, no later backup holds a slot that wraps a key from before it |
| ProtocolTheorems.SoloWriteIsARun | crates/wcm-core/src/vault/mod.rs:200-231 | the imperative `write`, for every combination of I/O failures, is a run of the transition system with the same file, backup and vault in memory |
| Vault.UnlockedVault.Write | crates/wcm-core/src/vault/mod.rs:200-231 | succeeds exactly if the check passes, the header is valid, header and body encode within their bounds and no call fails; then the file is this vault one generation on and the vault remembers it; otherwise neither changes; the lock is free afterwards |
| Vault.UnlockedVault.SaveDroppingBackup | crates/wcm-cli/src/context.rs:139-151 | succeeds exactly when `write` does; then, if removal works, no backup is left, and in every other case the backup is what `write` leaves |
| Vault.Disk.WriteAtomic | crates/wcm-core/src/vault/file.rs:75-102 | the file is replaced exactly if temp file and rename work; the backup is the old file, partial or untouched depending on the copy |
| Vault.OpenSealedIff | crates/wcm-core/src/vault/mod.rs:88-100 | a written file opens under its own key and no other, and gives back header, body and generation unchanged |
| Vault.OpensUntouchedIff | crates/wcm-core/src/vault/mod.rs:88-100 | any file opens if and only if its header is valid, the key is that of the body, and nonce and header are those the body was sealed with; otherwise it is damaged |
| Vault.SaveThenOpen | crates/wcm-core/src/vault/mod.rs:196-231 | saving and opening again returns the vault exactly as it was saved |
| Vault.WriteCheckIff | crates/wcm-core/src/vault/mod.rs:200-217 | creating needs that there is no file, saving that the file is still of the generation loaded, which else is `Locked`; a missing or damaged file is reported as such |
| Vault.BuildsIff | crates/wcm-core/src/vault/mod.rs:218-228 | what is written differs from the vault in generation and nonce only: generation 1 when creating, else one more than was loaded; exactly valid headers are written |
| Slots.SlotAadInjective | crates/wcm-core/src/slot/mod.rs:175-182 | the associated data of a slot determines vault id, slot id and kind |
| Slots.InfoInjective | crates/wcm-core/src/slot/mod.rs:184-189 | two key derivation contexts are equal only for the same kind and vault, although neither label is padded |
| Slots.BindingsSpell | crates/wcm-core/src/slot/mod.rs:174-189 | associated data and derivation contexts are these ASCII texts, vault id, slot id and kind number |
| Slots.UnwrapIffBound | crates/wcm-core/src/slot/mod.rs:192-256 | a wrapped DEK comes out if and only if id, kind, salt, nonce, secret, vault and envelope are those it was sealed with, whatever else was edited; it is then the sealed DEK |
| Slots.SecretOpensIff | crates/wcm-core/src/slot/passphrase.rs:70-92 | a passphrase slot opens with its own secret to the sealed DEK, and with any other fails with `Integrity` |
| Slots.UnwrapYieldsWrapped | crates/wcm-core/src/slot/mod.rs:223-252 | whatever opens a slot yields the DEK that it wraps |
| Slots.SealsIff | crates/wcm-core/src/slot/mod.rs:192-220 | sealing fails exactly for an empty secret, Argon2 parameters out of bounds, or without a working DPAPI; the ciphertext is in a DPAPI envelope exactly if one was asked for |
| Unlock.OpenSlot | crates/wcm-core/src/slot/mod.rs:223-284 | the salt is visible to the backend only during its call and is cleared on every path; the result is that of the backend's own slot opening |
| Unlock.SealSlot | crates/wcm-core/src/slot/mod.rs:192-220 | a sealed slot wraps the DEK under the given id and label, and the passphrase just used opens it again; the salt is cleared on every path |
| Unlock.OpenIkmIff | crates/wcm-core/src/slot/passphrase.rs:53-92 | opening with what an enrolment returned gives the enrolled key material if and only if secret and salt are the same again, whatever parameters the opening backend has and wherever the secret comes from |
| Unlock.OrderIsPermutationIff | crates/wcm-core/src/vault/mod.rs:120-132 | the slots tried are a permutation of the header's, the preferred one first, if and only if exactly one slot has the preferred label |
| Unlock.OrderSlots | crates/wcm-core/src/vault/mod.rs:119-132 | the loop builds that order, or fails if no slot has the label |
| Unlock.TryInOrder | crates/wcm-core/src/vault/mod.rs:134-153 | the loop makes exactly the calls, in order, that trying slot after slot makes until an answer other than unavailable decides, and returns what that answer leads to on the file as it then is |
| Unlock.UnlockVault | crates/wcm-core/src/vault/mod.rs:108-154 | the whole of `unlock` as a function of what its two reads of the file find, the preset secret, the prompt and the credential API: calls made and result |
| UnlockAnswers.UnlockIff | crates/wcm-core/src/vault/mod.rs:134-153 | `unlock` succeeds if and only if some slot opens, every slot before it had no backend or was unavailable, and its key opens the second read; it says that no slot is usable exactly if all were passed over |
| UnlockAnswers.UnlockAnswers | crates/wcm-core/src/vault/mod.rs:134-147 | the answer of the first slot that is not passed over is the answer of `unlock`, and nothing is asked after it |
| UnlockAnswers.UnlockRefuses | crates/wcm-core/src/vault/mod.rs:114-125 | without a readable header of the right vault and, if one is preferred, a slot of that label, `unlock` asks nothing and says what is wrong |
| UnlockAnswers.OrderIs | crates/wcm-core/src/vault/mod.rs:119-132 | all slots are tried as the header has them, or with the preferred one first and the others as they stand |
| UnlockAnswers.PassphraseBehindHello | crates/wcm-core/src/vault/mod.rs:142-147 | Hello slots that cannot be asked do not stop the right passphrase of a slot behind them |
| UnlockAnswers.CancelEndsUnlock | crates/wcm-core/src/vault/mod.rs:142-148 | a cancelled Hello prompt ends `unlock` with `AuthCancelled`, and the cancelled call is the last one made, whatever slots are left |
| UnlockAnswers.PassphraseAnswers | crates/wcm-core/src/slot/passphrase.rs:53-92 | a sealed passphrase slot answers with its key to its own secret and with `Integrity` to any other; an error of the prompt is passed on |
| UnlockAnswers.LiveHelloAnswers | crates/wcm-core/src/slot/mod.rs:223-252 | a Hello slot the commands sealed answers with the key while its credential is as it was enrolled, its envelope being that of the slot |
| UnlockAnswers.LostEnvelopePasses | crates/wcm-hello/src/dpapi.rs:88-99 | a Hello slot whose DPAPI envelope cannot be opened here is passed over |
| UnlockAnswers.IllSizedAnswers | crates/wcm-core/src/slot/mod.rs:237-238 | a slot whose salt or nonce has the wrong length is damaged, whoever would open it, and nothing is asked |
| Unlock.UnlockYieldsTheVault | crates/wcm-core/src/vault/mod.rs:108-154 | for sound files at both reads, whatever the credential API, the user and the preferred label are, an `unlock` that succeeds returns the file of the second read whole, which then has the key of the first, whichever slot opened |
| Unlock.PresetSecretDecides | crates/wcm-cli/src/context.rs:112-120 | with a secret from the environment, `unlock` preferring a passphrase slot tries that slot only and asks Hello nothing |
| Unlock.EnvUnlockIsOrderIndependent | crates/wcm-cli/src/context.rs:101-127 | a secret from the environment opens the vault if and only if it opens some passphrase slot, wherever that stands, always to the same vault; otherwise the answer is `Integrity` |
| Unlock.TryEachIff | crates/wcm-cli/src/context.rs:110-123 | trying the passphrase slots in turn succeeds if and only if one of them opens the file |
| UnlockAnswers.EachStops | crates/wcm-cli/src/context.rs:110-120 | with a secret from the environment the first passphrase slot that answers anything but `Integrity` decides |
| UnlockAnswers.EachGivesUp | crates/wcm-cli/src/context.rs:110-123 | if none does the answer is `Integrity`; without any passphrase slot there is none |
| Unlock.UnlockWithEnv | crates/wcm-cli/src/context.rs:101-127 | with a passphrase slot in the header the result is that of trying each, and the Hello API is never called; without one it is that of `unlock` |
| Header.ValidateIff | crates/wcm-core/src/vault/header.rs:125-162 | sorting, removing neighbours and comparing lengths accepts exactly the headers with distinct ids and labels (and the right version, lengths and cipher) |
| Header.ValidateTable | crates/wcm-core/src/vault/header.rs:125-162 | the same with the constants written out; whatever is refused is reported as damaged |
| Sorting.SortDedupDecidesDistinct | crates/wcm-core/src/vault/header.rs:145-160 | for any total order, sorting and removing equal neighbours keeps the length if and only if nothing repeats |
| Sorting.StrLeqIff | crates/wcm-core/src/vault/body.rs:132-138 | names are in order if one is a beginning of the other, or smaller in the first character in which they differ |
| Header.FirstFreeIdIsLeast | crates/wcm-cli/src/commands/recover.rs:70-74 | the search returns the least unused id from 1 to 255 and fails if and only if all are taken |
| Header.FirstFreeFrom | crates/wcm-core/src/vault/header.rs:119-123 | from any start, the id found is unused and every id before it is taken |
| Header.AppendKeepsDistinct | crates/wcm-core/src/vault/header.rs:145-160 | a slot with a free id and an unused label keeps ids and labels distinct |
| Header.EncodeIff | crates/wcm-core/src/vault/header.rs:57-70 | encoding succeeds exactly for a valid header of at most 1 MiB, and lays out magic, four bytes of length and the header |
| Header.DecodeIff | crates/wcm-core/src/vault/header.rs:74-99 | decoding accepts exactly the prefixes laid out so with a valid header in them, and reports everything else as damaged |
| Header.DecodeEncode | crates/wcm-core/src/vault/header.rs:57-99 | an encoded header followed by any bytes decodes to that header and to where it ended |
| Header.EncodeInjective | crates/wcm-core/src/vault/header.rs:57-70 | the authenticated prefix determines the header, whatever ciphertext follows |
| Header.DecodeSound | crates/wcm-core/src/vault/header.rs:74-99 | everything accepted is a valid header within the length bounds and inside the input |
| Header.ToLe32 | crates/wcm-core/src/vault/header.rs:66-68 | four little-endian bytes from which the length is read back |
| Body.DecodedIsIdentity | crates/wcm-core/src/vault/body.rs:126-138 | re-sorting on decode changes no body that the operations can build |
| Body.DecodedSorts | crates/wcm-core/src/vault/body.rs:126-138 | whatever order the codec produced, decoding yields the same items in the order of their names |
| Body.CanonicalUnique | crates/wcm-core/src/vault/body.rs:132-138 | a sorted body without repeated names is determined by the map it stands for |
| Body.ValidNameIff | crates/wcm-core/src/item.rs:320-354 | a name is 1 to 200 characters without control characters, no dash first, no whitespace at either end, made of segments with slashes between them that are neither empty nor `..` |
| Body.InsertIsMapUpdate | crates/wcm-core/src/vault/body.rs:33-46 | `insert` is map update, refused exactly for a bad name or an existing one without overwrite |
| Body.RemoveIsMapRemoval | crates/wcm-core/src/vault/body.rs:49-60 | `remove` is map removal, refused exactly for a missing name |
| Body.UpdateIsMapUpdate | crates/wcm-core/src/vault/body.rs:78-92 | a name-preserving `update` is the map update at that name |
| Body.RenameIsMapMove | crates/wcm-core/src/vault/body.rs:63-75 | `rename` moves one entry, of which only name and time of change differ, leaves the body alone if the names are equal, and fails exactly for a bad name, or a missing or taken one when they differ |
| Body.MoveIsMapMove | crates/wcm-cli/src/commands/mv.rs:35-46 | `mv` moves the entry so; with force an entry in its way disappears, without it the move is refused |
| Body.DedupNamesKeeps | crates/wcm-cli/src/commands/rm.rs:38-45 | names are kept once each, and none is lost |
| Body.CheckAllExistIff | crates/wcm-cli/src/commands/rm.rs:48-53 | the check passes if and only if every name is in the body |
| Body.FirstMissing | crates/wcm-cli/src/commands/rm.rs:48-53 | the error names the first name that is missing |
| Body.RemoveAllIff | crates/wcm-cli/src/commands/rm.rs:55-57 | removing distinct names succeeds if and only if all are there, and removes just them |
| Body.RemoveCommandCannotFail | crates/wcm-cli/src/commands/rm.rs:16-57 | after removing duplicates and checking existence, multi-`rm` cannot fail and removes exactly the names |
| Merge.MergeItems | crates/wcm-core/src/export.rs:127-158 | fails if and only if some incoming item is invalid, before anything is changed; otherwise takes in the items one after the other |
| Merge.ValidIncomingIff | crates/wcm-core/src/export.rs:89-120 | an incoming item is accepted if and only if its name is valid, its field names are 1 to 64 letters, digits, `_`, `.` and `-`, and notes and tags have no control characters but tab and line ends in notes |
| Merge.MergeRefinesMaps | crates/wcm-core/src/export.rs:127-158 | the modes are first-wins union, last-wins union and last-wins of the incoming alone; the report accounts for every item and for the new size |
| Merge.ReplaceReportIsSizeIff | crates/wcm-core/src/export.rs:127-158 | in replace mode the reported number is the new size if and only if no name repeats |
| EnvSpecs.DedupLastWins | crates/wcm-cli/src/commands/run.rs:174-184 | each variable is kept once, where first seen, and the environment is that of setting all in turn |
| Hello.TransientIff | crates/wcm-hello/src/backend.rs:133-136 | an error is worth a second attempt if and only if its text contains one of four codes |
| Hello.RetriesOnce | crates/wcm-hello/src/backend.rs:69-77 | a retried operation makes the one call once or twice, twice exactly if the first answer was a transient error, and its result is the last answer |
| Hello.HelloBackend.CreateWithRetry | crates/wcm-hello/src/backend.rs:69-77 | the log grows by one or two copies of the create call, by two only after a transient error, and the result is the answer to the last |
| Hello.HelloBackend.SignWithRetry | crates/wcm-hello/src/backend.rs:69-77 | the same for the signature call |
| Hello.HelloBackend.OpenOrCreate | crates/wcm-hello/src/backend.rs:97-113 | the calls and outcome of opening or, if allowed and missing, creating a credential |
| Hello.HelloBackend.SignVerified | crates/wcm-hello/src/backend.rs:115-130 | the calls and outcome of signing, with failed verification as `Integrity` |
| Hello.HelloBackend.Enroll | crates/wcm-hello/src/backend.rs:154-181 | the calls and outcome of an enrolment against any API |
| Hello.HelloBackend.Open | crates/wcm-hello/src/backend.rs:183-207 | the calls and outcome of opening against any API |
| Hello.OpenCalls | crates/wcm-hello/src/backend.rs:183-207 | for an API that answers anything, opening asks at most for the credential and for two signatures over the stored challenge, never creates or deletes, and asks nothing when no prompt may be shown |
| Hello.EnrollCalls | crates/wcm-hello/src/backend.rs:154-181 | enrolling follows one script up to where it stops: at most two creates, only after the API said the credential is missing and if allowed, at most two signatures, no deletion, nothing when no prompt may be shown |
| Hello.SuccessIsVerified | crates/wcm-hello/src/backend.rs:115-130 | success of either operation means a signature that verifies under the key in the slot |
| Hello.OpenReturnsEnrolledSecret | crates/wcm-hello/src/backend.rs:183-207 | whatever two APIs answer, an `open` that succeeds returns the very secret of the enrolment, so the slot gives back the sealed DEK and no other |
| Hello.HonestEnroll | crates/wcm-hello/src/kcm_api.rs:111-173 | over a faithful store enrolling succeeds, creates only what is missing, touches no other credential and signs with the stored key |
| Hello.HonestOpenIff | crates/wcm-hello/src/kcm_api.rs:111-173 | over a faithful store a slot opens exactly while the stored key's signature verifies under the slot's public key; with the enrolled key it does |
| Hello.CredNameInjective | crates/wcm-hello/src/backend.rs:20-27 | different vaults never share a credential name |
| Hello.CredNameAt | crates/wcm-hello/src/backend.rs:20-23 | the credential of a vault is called `wcm-v1-` and the 32 hexadecimal digits of its id |
| HelloAnswers.SignTable | crates/wcm-hello/src/backend.rs:79-96 | a signature request ends with the signature exactly if it was given and verifies, and otherwise as the last answer says |
| HelloAnswers.OpenTable | crates/wcm-hello/src/backend.rs:183-207 | `open` case by case, for every answer of the API, no interactive session and no prompt allowed |
| HelloAnswers.OpenCancelledIff | crates/wcm-hello/src/backend.rs:79-96 | `open` answers `AuthCancelled` if and only if it asked and its last call was answered with a cancellation |
| HelloAnswers.OpenUnavailableIff | crates/wcm-hello/src/backend.rs:55-96 | `open` answers `AuthUnavailable` if and only if no prompt may be shown or its last call was answered by a missing key, a locked device or the like |
| HelloAnswers.ObtainTable | crates/wcm-hello/src/backend.rs:97-113 | the credential is there, or missing, allowed to be made and made, or made meanwhile; any other answer ends the enrolment |
| HelloAnswers.EnrollTable | crates/wcm-hello/src/backend.rs:154-181 | how an enrolment ends by its last call; an attestation that says no or fails is only recorded |
| HelloAnswers.EnrollCancelledIff | crates/wcm-hello/src/backend.rs:154-181 | an enrolment answers `AuthCancelled` if and only if it asked and its last call was answered with a cancellation |
| KeyTheorems.EnrolmentSealsHello | crates/wcm-cli/src/commands/slot.rs:106-141 | the Hello slot that the commands seal, and the credential store they leave, are those of the enrolment machine over a faithful store |
| KeyTheorems.SealNewGood | crates/wcm-core/src/slot/mod.rs:192-220 | whatever a command seals opens again to the sealed key, with the secret or credential used, and only a missing credential is created |
| KeyTheorems.LiveOpens | crates/wcm-hello/src/backend.rs:183-207 | a slot whose credential is still the enrolled key opens the vault with the store as it is |
| KeyTheorems.AddTransacts | crates/wcm-cli/src/commands/slot.rs:213-257 | `slot add` succeeds exactly for a free label, a free id and a slot that can be sealed; it appends that slot and the saved header is valid |
| KeyTheorems.RmTransacts | crates/wcm-cli/src/commands/slot.rs:273-338 | `slot rm` succeeds exactly when removable, keeps a passphrase slot, and deletes only credentials no saved slot needs |
| KeyTheorems.RecoverTransacts | crates/wcm-cli/src/commands/recover.rs:76-115 | `recover` keeps the other slots in order, adds one, and deletes only credentials no saved slot needs |
| KeyTheorems.RekeyTransacts | crates/wcm-cli/src/commands/rekey.rs:44-116 | `rekey` keeps ids, labels, kinds and order and makes every slot good for the new key |
| KeyTheorems.InitTransacts | crates/wcm-cli/src/commands/init.rs:41-132 | `init` makes a valid vault of its two or three slots whose every slot opens it, or saves nothing |
| KeyTheorems.DoomedAreNotNeeded | crates/wcm-cli/src/commands/slot.rs:147-173 | no credential chosen for deletion is named by a slot that is kept |
| KeyCommands.ResealLoop | crates/wcm-cli/src/commands/rekey.rs:64-109 | the loop seals each slot in turn and leaves at the first that fails, with what had been created by then |
| KeyCommands.InitSlots | crates/wcm-cli/src/commands/init.rs:52-123 | pushing slots and counting ids gives the jobs numbered from 1 in order |
| KeyCommands.DestroyAll | crates/wcm-cli/src/commands/recover.rs:113-115 | the loop asks the API to delete exactly the credentials no saved slot shares, in order, whatever the API answers |
| KeyRuns.PlanTransacts | crates/wcm-core/src/vault/header.rs:125-162 | no key command run on a good vault builds a header that validation refuses, creates a credential that exists, or deletes one before the save or one that is needed |
| KeyRuns.EverySlotOpensTheVault | crates/wcm-core/src/slot/mod.rs:192-284 | after any run of the key commands, each stopped anywhere, with the credential store changed from outside at will, every slot opened with what it was sealed with yields exactly the key the body opens with |
| KeyRuns.HelloSlotsKeepWorking | crates/wcm-cli/src/commands/recover.rs:102-115 | with no outside change, every Hello slot of the file opens with the store as it is, after any run with crashes anywhere |
| KeyRuns.NoEffectKillsASlot | crates/wcm-cli/src/commands/slot.rs:287-301 | from any effect of a command to any later one no Hello slot of the file on disk stops working, even if others had been lost before |
| KeyRuns.RekeyRotates | crates/wcm-cli/src/commands/rekey.rs:60-116 | `rekey` succeeds if and only if every slot can be sealed again; then each keeps place, id, label and kind, yields the new key, and none wraps the old |
| KeyRuns.FailedRekeyLeavesTheFile | crates/wcm-cli/src/commands/rekey.rs:67-116 | a `rekey` that fails leaves the file as it was, wherever it stops |
| KeyOutcomes.InitOutcome | crates/wcm-cli/src/commands/init.rs:41-132 | `init` succeeds if and only if there is no file and every wanted slot can be sealed; it saves the first generation of an empty vault whose slots, in their order, open with the recovery key, the passphrase and the credential handed in and nothing else |
| KeyOutcomes.AddOutcome | crates/wcm-cli/src/commands/slot.rs:213-257 | `slot add` succeeds if and only if the label is neither empty nor taken, an id is free and the slot can be sealed; it appends a slot with the least free id that opens with what was handed in and nothing else; body and key stay |
| KeyOutcomes.RmOutcome | crates/wcm-cli/src/commands/slot.rs:273-338 | `slot rm` succeeds if and only if a slot has the label and a passphrase slot has another; the other slots stay in their order, and the credentials go that only removed slots needed, those and no others |
| KeyOutcomes.RecoverOutcome | crates/wcm-cli/src/commands/recover.rs:62-115 | `recover` keeps, in order, exactly the passphrase slots not labelled `hello` (or `passphrase`, if that is made), puts the new slot last, which opens with what was handed in, and deletes the credentials of dropped slots that no saved slot names, those and no others; it succeeds if and only if an id is free and the slot can be sealed |
| KeyOutcomes.RekeyOutcome | crates/wcm-cli/src/commands/rekey.rs:60-116 | `rekey` succeeds if and only if every slot can be sealed again; then a slot labelled `recovery` opens with the new recovery key only, every other passphrase slot with the passphrase given for it only, Hello slots with the credential, all to the new key, each in its place |
| KeyOutcomes.EditOutcome | crates/wcm-cli/src/context.rs:139-151 | a command that edits items saves just them, under the same slots, key and header but for generation and nonce |
| KeyOutcomes.NeedsAFile | crates/wcm-cli/src/commands/slot.rs:231-237 | without a file, or with a damaged one, every command but `init` says so and does nothing |
| KeyOutcomes.AddRefuses | crates/wcm-cli/src/commands/slot.rs:228-245 | which error `slot add` reports: for an empty label, a taken one, no free id, or a slot that cannot be sealed |
| KeyOutcomes.RmRefuses | crates/wcm-cli/src/commands/slot.rs:319-342 | a refused `slot rm` reports invalid input and does nothing |
| KeyOutcomes.RecoverRefuses | crates/wcm-cli/src/commands/recover.rs:70-95 | which error `recover` reports: no free id, or the new slot cannot be sealed |
| KeyOutcomes.RekeyRefuses | crates/wcm-cli/src/commands/rekey.rs:44-109 | `rekey` reports a Hello slot that cannot be enrolled here before anything else, and otherwise the error of the first slot that cannot be sealed again |
| KeyOutcomes.InitRefuses | crates/wcm-cli/src/commands/init.rs:41-123 | `init` reports an existing file before it does anything, and otherwise the error of the first slot that cannot be sealed |
| KeyRace.EverySlotOpensTheVault | crates/wcm-core/src/vault/mod.rs:200-231 | in every interleaving of key commands of any number of processes, each stopped anywhere, the file is valid and every slot, opened with what it was sealed with, yields the key of the body |
| KeyRace.HelloSlotWorksIff | crates/wcm-cli/src/commands/slot.rs:287-301 | at every moment of every interleaving a Hello slot of the file works if and only if no other process has deleted its credential since the slot was enrolled |
| KeyRace.HelloSlotsStayLiveIff | crates/wcm-cli/src/commands/slot.rs:160-173 | over a whole run all Hello slots of the file stay live if and only if no deletion falls between another process's enrolment of a slot and a later moment at which that slot is on disk |
| KeyRace.LostSlotRuns | crates/wcm-hello/src/backend.rs:97-113 | two runs from the empty world that lose a Hello slot, every step of which succeeds: one saves the enrolled slot before the other process deletes the credential, one after it |
| KeyProtocol.SavedPlanIsARun | crates/wcm-cli/src/context.rs:139-151 | whatever any command but `init` saves, editing body, slots and key as it does passes every guard of the protocol and leaves a session that `write` turns into exactly the command's file |
| KeyProtocol.SavedInitIsARun | crates/wcm-cli/src/commands/init.rs:41-132 | the same for `init`, from an idle process without a file |
| KeyProtocol.UnlockIsJustUnlocked | crates/wcm-core/src/vault/mod.rs:108-154 | the session a command starts from is the one `unlock` ends in, unless a `rekey` came between its reads |
| KeyProtocol.WouldWriteCommits | crates/wcm-core/src/vault/mod.rs:200-231 | from there, with the lock free and the file as loaded, the process alone can run to the commit of that very file |
| KeyProtocol.RmLeavesOut | crates/wcm-cli/src/commands/slot.rs:287-298 | the run of `slot rm` leaves a session without any slot of that label |
| KeyProtocol.RemovedSlotStaysRemoved | crates/wcm-cli/src/context.rs:134-151 | a slot that a save left out is in no later file, whatever other processes had loaded before, and in no later backup once one has been dropped since, unless somebody adds that very slot again |
| KeyLockout.NoLockOut | crates/wcm-cli/src/commands/slot.rs:319-338 | over all runs in which no passphrase slot is added under the label `hello`, the vault always has a passphrase slot |
| KeyLockout.NoLockOutAmongMany | crates/wcm-cli/src/commands/slot.rs:319-338 | the same in every interleaving of any number of processes |
| KeyLockout.PassphraseLostIff | crates/wcm-cli/src/commands/recover.rs:62-67 | a command takes the last passphrase slot if and only if it is `recover` to Hello and every passphrase slot is labelled `hello` |
| KeyLockout.LockOutRun | crates/wcm-cli/src/commands/recover.rs:62-67 | the run that locks out: every command of it succeeds and only a Hello slot is left |
| RecoveryKey.Generate | crates/wcm-core/src/recovery_key.rs:27-34 | the random part is kept and the checksum makes the key valid |
| RecoveryKey.DisplayKey | crates/wcm-core/src/recovery_key.rs:37-46 | the loop over chunks writes the prefix and eight groups of four letters |
| RecoveryKey.DisplayAt | crates/wcm-core/src/recovery_key.rs:37-46 | a displayed key, character by character: `WCM1`, then eight times a dash and four letters, each the base32 letter of its five bits of the key |
| RecoveryKey.ParseDisplay | crates/wcm-core/src/recovery_key.rs:37-95 | a displayed key parses to itself |
| RecoveryKey.ParseIff | crates/wcm-core/src/recovery_key.rs:59-95 | `parse` returns a key, whose last two bytes are the checksum of the first 18, for exactly its spellings: any ASCII case, separators anywhere, 0, 1 and 8 for O, I and B in the body, the prefix optional unless what is left reads like it |
| RecoveryKey.SeparatorIs | crates/wcm-core/src/recovery_key.rs:60-64 | separators are dash, underscore and Unicode whitespace |
| RecoveryKey.LooksLikeIff | crates/wcm-core/src/recovery_key.rs:98-100 | a secret looks like a recovery key if and only if it reads `WCM1` in either case after leading whitespace |
| RecoveryKey.NormalizeIff | crates/wcm-cli/src/prompt.rs:86-92 | input that looks like a recovery key becomes the display of the key it spells or is refused; other input is left alone |
| RecoveryKey.NormalizeFixedIff | crates/wcm-cli/src/prompt.rs:86-92 | a secret is left as it is if and only if it does not look like a recovery key or is the canonical display of one |
| RecoveryKey.NormalizeIdempotent | crates/wcm-cli/src/prompt.rs:86-92 | normalising twice is normalising once |
| RecoveryKey.NewPassphraseReopensIff | crates/wcm-cli/src/commands/slot.rs:56-66 | a new passphrase sealed as given reopens its slot by typing it if and only if the normaliser leaves it alone |
| RecoveryKey.DisplayLooksLike | crates/wcm-core/src/recovery_key.rs:98-100 | every displayed key is recognised as one |
| Base32.DecodeEncode | crates/wcm-core/src/recovery_key.rs:38-38 | decoding undoes encoding on whole groups of five bytes, with no spare bits |
| Base32.EncodeDecode | crates/wcm-core/src/recovery_key.rs:82-84 | encoding undoes decoding, so different spellings in letters are different keys |
| Base32.EncodeAt | crates/wcm-core/src/recovery_key.rs:38-38 | each letter is the one of the base32 alphabet at the number its five bits write, highest first |
| WslArgs.TranslateArgs | crates/wcm-cli/src/wsl_core.rs:142-202 | the index-driven loop writes the arguments read as tokens, translated and written out again |
| WslArgs.LexSound | crates/wcm-cli/src/wsl_core.rs:156-200 | reading arguments as options, values and positionals loses nothing and reads nothing after a bare `--` |
| WslArgs.LexIff | crates/wcm-cli/src/wsl_core.rs:156-207 | every argument list has exactly one reading as options, values, positionals and tail, with the options that take a value written out, and that is how it is read |
| WslArgs.OnlyPathsChange | crates/wcm-cli/src/wsl_core.rs:137-202 | the number of arguments stays, exactly the values of path options and the first positional after `import` are translated, everything else stays |
| WslArgs.TrIs | crates/wcm-cli/src/wsl_core.rs:127-151 | a value stays if it is empty, a dash or in Windows form, or has no translation; otherwise the translation is taken |
| WslArgs.TailUntouched | crates/wcm-cli/src/wsl_core.rs:158-161 | everything from the first `--` that is not an option's value comes out as it went in |
| WslArgs.TranslateIdempotent | crates/wcm-cli/src/wsl_core.rs:132-151 | translating again changes nothing if the translation yields only Windows paths |
| WslSsh.ParseSshAction | crates/wcm-cli/src/wsl_core.rs:374-445 | the index-driven loop with its early exits computes the scan over the tokens |
| WslSsh.ParseIff | crates/wcm-cli/src/wsl_core.rs:374-445 | an action is recognised if and only if the positionals are `ssh`, `add` or `remove` and a name, all options are known and no lifetime goes with `remove`; the last value of an option counts, and what is forwarded keeps its order |
| WslSsh.InlineIsSplit | crates/wcm-cli/src/wsl_core.rs:389-401 | wherever an option may stand, `--opt v` and `--opt=v` give the same action |
| WslSsh.RenderRoundTrip | crates/wcm-cli/src/wsl_core.rs:374-445 | a parsed action written out as arguments parses to the same action |
| WslExact.ScannersAgreeIff | crates/wcm-cli/src/wsl_core.rs:374-445 | for an ssh action, parsing after translating equals translating the forwarded globals after parsing, under every path translation, if and only if the translator's path positions are the ssh parser's `--vault` values, up to values of `-t`, `--lifetime` and `--ssh-add` that are set again later |
| WslExact.SameReadingAgrees | crates/wcm-cli/src/wsl_core.rs:137-202 | one half of it, for a given translation |
| WslExact.OtherReadingParts | crates/wcm-cli/src/wsl_core.rs:188-198 | the other half, with a translation under which the two sides differ |
| WslAgree.OrdinaryActionsAgree | crates/wcm-cli/src/wsl_core.rs:141-202 | they agree whenever no `-t`, `--lifetime` or `--ssh-add` value is written apart before `ssh` or begins with a dash |
| WslAgree.ImportBeforeSsh | crates/wcm-cli/src/wsl_core.rs:188-198 | `-t import ssh add NAME` is an action, but no longer one after translation |
| WslVault.HasVaultArgIff | crates/wcm-cli/src/wsl_core.rs:209-213 | for all arguments, the quick look for `--vault` is right if and only if the first thing to meet it is a vault option, or nothing, or a `--` as a value with no vault option after it, or a value that reads like the option with one after it |
| WslVault.VaultFromOnePlaceIff | crates/wcm-cli/src/wsl_core.rs:218-237 | with a vault in the environment, `wcm.exe` reads the vault from the given option or else from the environment, in front of otherwise the same arguments, if and only if the quick look is right; an unset or empty variable adds nothing |
| WslVault.EnvPathIs | crates/wcm-cli/src/wsl_core.rs:224-231 | the vault of the environment is translated unless it is in Windows form or has no translation |
| WslVault.VaultAsValue | crates/wcm-cli/src/wsl_core.rs:209-237 | `--slot --vault` names no vault, yet the one in the environment is dropped |

## Left out

- Real cryptography and CBOR bytes: symbolic terms and an arbitrary lawful codec stand for them, so secrecy, lengths of ciphertexts and malformed CBOR are not modelled.
- WinRT, DPAPI, window focus and session detection: foreign calls; DPAPI is an envelope that works on a machine or does not.
- Generation numbers are unbounded; the original counts in 64 bits.
- Power loss, directory flushing and partial reads: rename and read are single steps.
- Deleting or restoring the file by hand, `export` removing its own lock and backup, and `doctor --hello-selftest`: they step outside the protocol.
- The passphrase prompts of `rekey` and `slot add`: the secrets they return are inputs, and a prompt that fails is not a case of its own.
- `resolve_secret` of `wcm run`, item filters, password generation, output and exit codes: they would only add easy members.
- Command line parsing by clap, locating `wcm.exe`, `WSLENV`: plumbing around the two scanners.
- KeyCommands.PlanOf: a command reads the file once here, and in `KeyRace` too, while the original reads the header and then unlocks; `ProtocolTheorems.UnlockReturnsOneCommit` and `Unlock.UnlockVault` let those reads differ.
- KeyRace.HelloSlotsStayLiveIff: what a command does before its save is one step of its process, so another process never acts between two enrolments of one command, nor between an enrolment and its signature; credentials change through the commands only.
- KeyProtocol.RemovedSlotStaysRemoved: that nobody adds the same slot again is a premise on the run, since salts and nonces are parameters; the original draws them at random.
- Unlock.UnlockWithEnv: all its reads find the same file.
