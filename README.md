# gitfu, modelled in Dafny

gitfu puts a shell function named `git` in front of the real git binary. Most
invocations go straight through to git. A few sub-commands add some logic:

- `git commit` refuses to commit on top of a WIP commit.
- `git check` walks the changed files, shows each diff and asks whether to stage the file.
- `switch-branch` switches to a branch given by part of its name. It has three ways
  (`-f`, `-s`, `-c`) of getting past a checkout that uncommitted files block.
- `remove-branch` deletes a local branch or a remote branch found by part of its name,
  after a yes/no confirmation. With `--prune` it deletes every merged branch.
- `add-staged-files` stages again every file that is already staged.
- `gitfu init` prints the bash shim. `gitfu run` hands the remaining arguments on,
  putting every `-h`/`--help` flag back into the left-over arguments.

The model makes git an oracle. The oracle maps the record of everything issued so
far, plus one command, to a `Completed(stdout)` or `Failed(stderr)` response. Terminal
input is a sequence of lines and interrupts, and output is appended to a log of
events. Every flow returns a `Step`: a result (a value, or the Python exception it
raises) and the new input and log.

Lemmas are stated over whole flows. They cover:
- which git commands a flow issues, and in what order;
- what it prints;
- which exit status it ends with.

Each loop of the source that updates variables step by step is a `method` with a
`while` loop. It is proved equal to the recursive function the lemmas talk about. Two
loops only build a list and are modelled by recursion alone: the expansion of
directories in `hydrate_filenames` (`Check.Expand`, `Check.ExpandEach`) and the printing
of extra lines in `print_error` (`RemoveBranchScript.PrintError`).

Modules, one per source file:

- `Shell`: the process runner (`git.run`), `input()`, `print`
- `Color`: `gitfu/core/color.py`
- `Text`: Python's string operations (`splitlines`, `split()[0]`, `strip`, `lower`, `in`, slicing)
- `Sorting`: `sorted`
- `YesNo`: the y/n prompt loop shared by `remove_git_branch.py` and `check.py`
- `Commit`: `gitfu/commands/commit.py`
- `Check`: `gitfu/commands/check.py`
- `SwitchGitBranch`: `gitfu/standalone/switch_git_branch.py`
- `RemoveGitBranch`: `gitfu/standalone/remove_git_branch.py`
- `RemoveBranchScript`: `gitfu/scripts/remove_branch.py`
- `AddGitStagedFiles`: `gitfu/standalone/add_git_staged_files.py`
- `EntryPoint`: `gitfu/__main__.py`

## Model

| member | source | states |
|---|---|---|
| Shell.Run | gitfu/commands/commit.py:16 | A command is logged once. Its result is git's stdout when git completes, and otherwise a CalledProcessError that carries git's stderr. Nothing is read from the terminal. |
| Shell.Read | gitfu/commands/check.py:117 | `input()` logs its prompt and consumes exactly one answer. An interrupt raises KeyboardInterrupt, and no input left raises EOFError. |
| Color.Attr | gitfu/core/color.py:4-6 | Only `RESET` and `RED` are members of `AnsiColor`. |
| Color.NoYellow | gitfu/core/color.py:4-6 | `AnsiColor.YELLOW` does not exist. |
| Color.Colorize | gitfu/core/color.py:9-14 | The result starts with ESC and the colour code and ends with ESC `[0m`. It is exactly the text plus the colour code plus 5 characters long. |
| Color.UncolorColorize | gitfu/core/color.py:9-14 | Stripping the escape codes gives back the original text. |
| Color.ColorizeInjective | gitfu/core/color.py:9-14 | Two texts coloured alike are equal. |
| Text.Lower | gitfu/commands/commit.py:17 | `.lower()` keeps the length and maps every character by itself. |
| Text.FirstToken | gitfu/commands/commit.py:17 | `split()[0]` is a non-empty run of non-space characters. It is absent (IndexError) exactly when the string is all whitespace. |
| Text.FirstTokens | gitfu/standalone/remove_git_branch.py:127 | `split()[0]` of every line. It fails exactly when some line is blank, and otherwise maps line by line. |
| Text.StripStartSpec | gitfu/standalone/remove_git_branch.py:97-98 | `lstrip(chars)` removes the longest prefix made of those characters, and what is left is a suffix of the input. |
| Text.StripEndSpec | gitfu/standalone/remove_git_branch.py:97-98 | `rstrip(chars)` removes the longest suffix made of those characters, and what is left is a prefix of the input. |
| Text.SplitLines | gitfu/standalone/add_git_staged_files.py:9-12 | `splitlines()` yields lines that contain no newline. |
| Text.JoinSplitLines | gitfu/commands/check.py:104 | Joining the lines with `\n` gives back any text that does not end in a newline. |
| Text.SplitLinesJoin | gitfu/commands/check.py:104 | Splitting the `\n`-join of non-empty, newline-free lines gives back the lines. |
| Text.Filter | gitfu/scripts/remove_branch.py:141-152 | It keeps exactly the entries that contain the query as a substring, and never more entries than there were. |
| Text.Without | gitfu/standalone/remove_git_branch.py:126-129 | `- {'HEAD'}`: every member except the one removed. |
| Text.Distinct | gitfu/standalone/remove_git_branch.py:96-100 | The set comprehension: the same members, with no duplicates. |
| Text.Take | gitfu/commands/check.py:97 | `[:7]` is a prefix of length min(7, len). |
| Text.Drop | gitfu/scripts/remove_branch.py:165 | `[k:]` has length len − k, or 0 when k is past the end. |
| Sorting.Sort | gitfu/standalone/remove_git_branch.py:210 | `sorted` returns a sorted permutation of its input. |
| Sorting.SortedUnique | gitfu/standalone/remove_git_branch.py:210 | Two sorted permutations of the same names are equal, so the order shown does not depend on the order of the names. |
| YesNo.SettlesExactly | gitfu/standalone/remove_git_branch.py:212-214 | `value not in 'yn'` is a substring test. The loop stops exactly on `""`, `y`, `n` or `yn`, lowered. |
| YesNo.AskLoop | gitfu/standalone/remove_git_branch.py:212-216 | The prompt loop computes the recursive `Ask`. |
| YesNo.AskOutcome | gitfu/commands/check.py:116-121 | The first answer that settles decides the outcome, and the prompt is shown once per answer read. The answer is yes iff it lowers to `y`; an earlier interrupt or running out of answers raises instead. |
| YesNo.EmptyAnswerIsNo | gitfu/commands/check.py:118 | An empty answer ends the loop as a "no". |
| YesNo.YnAnswerIsNo | gitfu/commands/check.py:118 | The answer `yn` ends the loop as a "no". |
| Commit.WipCheckOutcome | gitfu/commands/commit.py:17-21 | The check raises IndexError iff the log output is all whitespace. It raises LastCommitWIPException iff the lowered first token contains `wip`. No other exception is raised. |
| Commit.CheckBeforeCommit | gitfu/commands/commit.py:6-9 | `git log` runs first. `git commit` with the arguments unchanged follows only when the log succeeded and the check passed. |
| Commit.FirstTokenOnly | gitfu/commands/commit.py:17 | Only the first whitespace-delimited word of the output is tested. |
| Commit.WipIgnoresCase | gitfu/commands/commit.py:17 | Upper-casing the log output does not change the verdict. |
| Commit.WipSubjectRefused | gitfu/commands/commit.py:16-21 | The subject `WIP: typo`, logged in quotes, is refused. |
| Commit.LaterWipPasses | gitfu/commands/commit.py:16-17 | The subject `fix wip test` passes, because `wip` is not in the first word. |
| Commit.EmptySubjectPasses | gitfu/commands/commit.py:16-17 | An empty subject passes, because the quotes make `""` the first word. |
| Commit.BlankOutputRaises | gitfu/commands/commit.py:17 | Empty or blank output raises IndexError. |
| AddGitStagedFiles.Relocated | gitfu/standalone/add_git_staged_files.py:24-27 | Every staged name loses `len(prefix)` leading characters. The prefix is empty when realpath printed `.`. |
| AddGitStagedFiles.Main | gitfu/standalone/add_git_staged_files.py:31-37 | The status is 0 or 1. It is 0 iff `main` raised nothing. |
| AddGitStagedFiles.NothingStagedAddsTracked | gitfu/standalone/add_git_staged_files.py:13-15 | With nothing staged, exactly `git add -u` follows the listing. |
| AddGitStagedFiles.StagedAddedTogether | gitfu/standalone/add_git_staged_files.py:9-28 | Otherwise the listing, then `rev-parse --show-toplevel`, then one `git add` of every relocated name, in order. |
| AddGitStagedFiles.DropPrefix | gitfu/standalone/add_git_staged_files.py:27 | Cutting a prefix the name really starts with leaves the rest of the name. |
| AddGitStagedFiles.NoPrefixCheck | gitfu/standalone/add_git_staged_files.py:24-27 | The cut does not check the prefix, so `sub/a.py` becomes `/a.py` and `top.py` becomes `.py`. |
| Check.Under | gitfu/commands/check.py:71-75 | The known files that start with the directory, and no more. |
| Check.Expand | gitfu/commands/check.py:69-77 | A directory expands to the known files under it. Any other name stands for itself. |
| Check.ExpandEachMembers | gitfu/commands/check.py:69-77 | A name is produced iff one of the given names expands to it. |
| Check.HydrateMembers | gitfu/commands/check.py:59-77 | No names means every known file. Otherwise each name, or each known file under a directory name. |
| Check.HydrateAppend | gitfu/commands/check.py:69-77 | Expansion distributes over concatenation, so the filenames are handled in their given order. |
| Check.HeaderParses | gitfu/commands/check.py:95-101 | The dedented header is exactly five lines: the diff line, the index with the short sha, `---`, `+++ /dev/null` and the hunk with the line count. The short sha is at most 7 characters. |
| Check.Removals | gitfu/commands/check.py:90-93 | One red line per line of the deleted file, each prefixed with `-`. |
| Check.RemovalsParse | gitfu/commands/check.py:90-104 | The printed removal lines split back into the same lines. |
| Check.RunCheck | gitfu/commands/check.py:16-41 | The loop over the files computes `Checked`. |
| Check.AskQuietly | gitfu/commands/check.py:116-121 | The prompt loop issues no git command and does not clear the screen. It only appends to the log. |
| Check.AddIfWantedEffects | gitfu/commands/check.py:84-85 | `git add <file>` is issued iff the answer is yes. The result is true iff it was issued and succeeded. |
| Check.DeletionEffects | gitfu/commands/check.py:88-108 | `git show HEAD:<file>` comes first. The sha is looked up only when it is not cached and the show succeeded. A cached sha is returned unchanged. |
| Check.PromptEffects | gitfu/commands/check.py:80-85 | `git diff <file>` comes first. After it come only prompts, output and possibly `git add`. |
| Check.FileEffects | gitfu/commands/check.py:33-36 | Each file starts with `show` (deleted files) or `diff` (others), clears nothing, and looks the sha up at most once. |
| Check.ClearsBetweenFiles | gitfu/commands/check.py:27-38 | The screen is cleared before every file except the first, so with n files it is cleared n − 1 times. |
| Check.ShaLookedUpOnce | gitfu/commands/check.py:111-113 | `lru_cache`: `rev-parse HEAD` runs at most once over the loop, and not at all once it is cached. |
| Check.CheckLooksUpShaOnce | gitfu/commands/check.py:16-41 | One whole `git check` runs `rev-parse HEAD` at most once. |
| Check.InterruptEndsQuietly | gitfu/commands/check.py:40-41 | Ctrl-C at the prompt ends the command normally, after the diff and the prompt. |
| Check.EndOfInputEscapes | gitfu/commands/check.py:27-41 | Running out of input at the prompt raises EOFError, which is not caught. |
| SwitchGitBranch.GetBranch | gitfu/standalone/switch_git_branch.py:124-137 | No matching line raises BranchNotFoundError. Several raise ExcessivelyBroadQueryError, carrying every stripped match. Exactly one returns it with `* ` stripped. |
| SwitchGitBranch.MarkerMatches | gitfu/standalone/switch_git_branch.py:125-129 | The test is made before stripping, so the query `*` finds the current branch. |
| SwitchGitBranch.StrategyOf | gitfu/standalone/switch_git_branch.py:59-65 | `-f` wins over `-s`, which wins over `-c`. No flag means no strategy. |
| SwitchGitBranch.ScanLine | gitfu/standalone/switch_git_branch.py:204-218 | A content line before any header raises (`None.append`). Every other line is handled. |
| SwitchGitBranch.BlockingFiles | gitfu/standalone/switch_git_branch.py:194-220 | The loop over the error lines computes `Scan` from no active bucket. |
| SwitchGitBranch.ScanRoutes | gitfu/standalone/switch_git_branch.py:204-218 | Once a header has been seen, every non-boilerplate line goes, stripped, to the bucket of the nearest header above it. |
| SwitchGitBranch.ScanFromStart | gitfu/standalone/switch_git_branch.py:203-218 | The scan raises an AttributeError iff some content line comes before every header. |
| SwitchGitBranch.OrphanLineRaises | gitfu/standalone/switch_git_branch.py:218 | An error text that starts with a file name raises. |
| SwitchGitBranch.NoStrategyReraises | gitfu/standalone/switch_git_branch.py:141-145 | A failed checkout without a strategy re-raises git's error after issuing nothing else. |
| SwitchGitBranch.SaveHandlerCommands | gitfu/standalone/switch_git_branch.py:185-191 | `-c` adds the blocking files and then commits `WIP: switch-branch-cache`. A failure stops the sequence part-way. |
| SwitchGitBranch.HandleRetriesOnce | gitfu/standalone/switch_git_branch.py:147-155 | After the handler's commands, the checkout is retried exactly once. The commands issued are always a prefix of that plan, and the whole plan on success. A failing handler ends it with its own error. Otherwise the result is that of the retried checkout, and a second failure propagates as CalledProcessError with git's stderr. |
| SwitchGitBranch.HandleUnparsed | gitfu/standalone/switch_git_branch.py:154 | An error text that `_get_blocking_files` cannot parse ends the handling with its exception, and the checkout is not retried. |
| SwitchGitBranch.RetryOnce | gitfu/standalone/switch_git_branch.py:154-155 | The same plan and the same outcome, for the blocking files already parsed. |
| SwitchGitBranch.QuotedSubjectNeverResets | gitfu/standalone/switch_git_branch.py:157-161 | The log output comes in quotes, so it never equals the bare marker, and `git reset HEAD~1` is not issued. |
| SwitchGitBranch.BareSubjectResets | gitfu/standalone/switch_git_branch.py:157-161 | After a completed `git log`, `git reset HEAD~1` follows iff the output equals the bare marker. Nothing else runs. |
| SwitchGitBranch.UnresolvedQueryExitsOne | gitfu/standalone/switch_git_branch.py:36-53 | A query that matches no branch, or several, prints the matching message and exits 1. Only `git branch` is issued. |
| RemoveGitBranch.Candidates | gitfu/standalone/remove_git_branch.py:96-105 | The stripped local names that contain the query, without duplicates. |
| RemoveGitBranch.CandidateCount | gitfu/standalone/remove_git_branch.py:101-111 | The number of candidates is the number of distinct matching local names, which decides ambiguity. |
| RemoveGitBranch.RemoteNames | gitfu/standalone/remove_git_branch.py:126-129 | `split()[0][len(remote + '/'):]` of every line, minus `HEAD`. A blank line raises IndexError. |
| RemoveGitBranch.DropEachMembers | gitfu/standalone/remove_git_branch.py:127 | A name is in the cut list iff it is the cut of one of the tokens. |
| RemoveGitBranch.PrintError | gitfu/standalone/remove_git_branch.py:219-226 | One red `ERROR: <message>` line on stderr. |
| RemoveGitBranch.PrintWarningRaises | gitfu/standalone/remove_git_branch.py:229-236 | `_print_warning` raises AttributeError (`YELLOW`) before printing anything. |
| RemoveGitBranch.ConfirmRunsNothing | gitfu/standalone/remove_git_branch.py:206-216 | The confirmation issues no git command. It asks once per answer up to the one that settles. |
| RemoveGitBranch.DeleteLocal | gitfu/standalone/remove_git_branch.py:63-74 | No names means nothing runs. Otherwise one `git branch -d/-D` with all the names, whose failure is re-raised. |
| RemoveGitBranch.DeleteRemoteLoop | gitfu/standalone/remove_git_branch.py:77-86 | The push loop computes `DeleteRemote`. |
| RemoveGitBranch.DeleteRemoteStops | gitfu/standalone/remove_git_branch.py:81-86 | On success one push per name, in order. On failure the pushes stop at the first one that failed. |
| RemoveGitBranch.DeleteOneRemote | gitfu/standalone/remove_git_branch.py:162 | Deleting one remote branch issues exactly its push. |
| RemoveGitBranch.AmbiguousExitsZero | gitfu/standalone/remove_git_branch.py:106-111 | Several local matches print the error, delete nothing and exit 0. |
| RemoveGitBranch.DeclineAborts | gitfu/standalone/remove_git_branch.py:112-116 | Declining the confirmation prints `Aborting`, deletes nothing and exits 0. |
| RemoveGitBranch.NoLocalMatchRaises | gitfu/standalone/remove_git_branch.py:119-122 | No local match raises AttributeError (exit status 1) before the remote listing. |
| RemoveGitBranch.ConfirmedDeleteReachesRemote | gitfu/standalone/remove_git_branch.py:112-118 | A confirmed, successful local delete goes on to the remote step without asking again. |
| RemoveGitBranch.AlsoRemoteOutcome | gitfu/standalone/remove_git_branch.py:126-162 | After a local delete, a branch absent from the remote ends after the listing. A present one is pushed for deletion without a second prompt. |
| RemoveGitBranch.PushAfterListing | gitfu/standalone/remove_git_branch.py:155-162 | The listing, then the push, and no prompt. |
| RemoveGitBranch.ScanMergedLoop | gitfu/standalone/remove_git_branch.py:167-179 | The loop over the merged listing computes `ScanMerged`. |
| RemoveGitBranch.ScanMergedLocals | gitfu/standalone/remove_git_branch.py:169-179 | The prune list is the stripped unstarred lines except `master`, in order. |
| RemoveGitBranch.MasterNeverPruned | gitfu/standalone/remove_git_branch.py:175-177 | `master` is never in the local prune list. |
| RemoveGitBranch.ScanMergedHasCurrent | gitfu/standalone/remove_git_branch.py:170-172 | The current branch is known iff some line starts with `*`. |
| RemoveGitBranch.ScanMergedCurrent | gitfu/standalone/remove_git_branch.py:170-172 | It is the last starred line, stripped. |
| RemoveGitBranch.Pruned | gitfu/standalone/remove_git_branch.py:182-186 | The tokens, with `<remote>/` cut off, other than the current branch's remote and `<remote>/HEAD`. |
| RemoveGitBranch.MergedRemotes | gitfu/standalone/remove_git_branch.py:182-186 | A blank line raises IndexError, and only a blank line does. |
| RemoveGitBranch.MergedRemotesMembers | gitfu/standalone/remove_git_branch.py:182-186 | A name is pruned iff some line's first token is that name under `<remote>/`, and it is neither the current branch nor HEAD. |
| RemoveGitBranch.Swallow | gitfu/standalone/remove_git_branch.py:199-203 | The `except CalledProcessError: pass` succeeds with the log unchanged. |
| RemoveGitBranch.PruneDeletions | gitfu/standalone/remove_git_branch.py:199-203 | The prune deletions always succeed. A failed local delete stops them before any push. |
| RemoveGitBranch.ExitOnGitFailure | gitfu/standalone/remove_git_branch.py:9-30 | `main` turns a CalledProcessError into status 1 and success into 0, and lets every other exception escape. |
| RemoveGitBranch.NothingToPrune | gitfu/standalone/remove_git_branch.py:188-190 | With nothing merged it prints `No branches to delete!`, shows no prompt and exits 0. |
| RemoveBranchScript.LocalBranches | gitfu/scripts/remove_branch.py:155-167 | Every listing line without its first two characters. |
| RemoveBranchScript.RemoteBranches | gitfu/scripts/remove_branch.py:170-181 | Exactly the lines matching `^[* ] remotes/<remote>/`, each without that prefix. |
| RemoveBranchScript.RemoteLineName | gitfu/scripts/remove_branch.py:176-180 | A line `* remotes/<remote>/<b>` or `  remotes/<remote>/<b>` yields `b`. |
| RemoveBranchScript.Question | gitfu/scripts/remove_branch.py:220-221 | The question always ends in a space, and one already ending in a space is kept. |
| RemoveBranchScript.UserInputLoop | gitfu/scripts/remove_branch.py:216-235 | The input loop computes `UserInput`. |
| RemoveBranchScript.UserInputOutcome | gitfu/scripts/remove_branch.py:224-235 | The first answer among `y Y n N` decides. Each earlier answer is followed by the invalid-input error. |
| RemoveBranchScript.RefusedAnswer | gitfu/scripts/remove_branch.py:227-233 | An unacceptable answer (the empty one included) prints the error and asks again. |
| RemoveBranchScript.AcceptedAnswer | gitfu/scripts/remove_branch.py:235 | An accepted answer means yes iff it is `y` or `Y`. |
| RemoveBranchScript.UserInputRunsNothing | gitfu/scripts/remove_branch.py:216-235 | The question loop issues no git command. |
| RemoveBranchScript.PrintError | gitfu/scripts/remove_branch.py:238-241 | It appends `error: <message>` to stderr, then each extra line in order, and nothing else. |
| RemoveBranchScript.GetBranchName | gitfu/scripts/remove_branch.py:87-138 | Several matches raise ErrorDuringExecution, and exactly one match is returned. With no match, the remote lookup raises. The local lookup prints the error and asks "Do you want to continue?": a yes returns the query, a no raises SuccessfulExecution, and an interrupt or end of input escapes. |
| RemoveBranchScript.DeleteLocal | gitfu/scripts/remove_branch.py:184-198 | A failed `git branch -d/-D` becomes ErrorDuringExecution, and only that does. |
| RemoveBranchScript.ProcessStatus | gitfu/scripts/remove_branch.py:248-249 | `main()` is called without `sys.exit`, so the status is 0 whatever it returns, unless an exception escapes. |
| RemoveBranchScript.NoArgumentsShowsHelp | gitfu/scripts/remove_branch.py:18-21 | With no arguments the help is shown and the exit is 0, with nothing run. |
| RemoveBranchScript.DeclineReturnsZero | gitfu/scripts/remove_branch.py:29-40 | Declining the local delete returns 0 after only `git branch`. |
| RemoveBranchScript.FailedLocalDeleteReturnsOne | gitfu/scripts/remove_branch.py:37-42 | A failed local delete makes `main` return 1 after `git branch` and the delete. The remote step is skipped, and the process still exits 0. |
| RemoveBranchScript.RemoteMissReturnsNotFound | gitfu/scripts/remove_branch.py:44-53 | An unresolved remote query returns `not found_local_branch` and pushes nothing. |
| RemoveBranchScript.RemoteMissRunsNothing | gitfu/scripts/remove_branch.py:106-126 | An unresolved remote lookup raises ErrorDuringExecution and issues no command. |
| EntryPoint.HelpIndexes | gitfu/__main__.py:54-60 | The positions of help flags are all below the end of the argument list. |
| EntryPoint.Flags | gitfu/__main__.py:71-77 | The arguments at the given positions, in that order. |
| EntryPoint.StripHelpFlags | gitfu/__main__.py:54-62 | The loop keeps the other arguments in order and records the help-flag positions. |
| EntryPoint.HelpIndexesSpec | gitfu/__main__.py:56-60 | The positions are increasing. They are exactly the positions from 2 on that hold `-h` or `--help`. |
| EntryPoint.KeptAll | gitfu/__main__.py:64-65 | With no help flag the arguments pass unchanged. |
| EntryPoint.KeptAndFlags | gitfu/__main__.py:54-62 | The kept arguments and the removed flags together are a permutation of the arguments. |
| EntryPoint.ArgvIndexesLast | gitfu/__main__.py:47-50 | Every argument is indexed, at its last position. |
| EntryPoint.Reinsert | gitfu/__main__.py:67-80 | The reinsertion loops compute `Place`. |
| EntryPoint.PullFlags | gitfu/__main__.py:70-72 | The inner `while` emits the flags that stood before the item. |
| EntryPoint.AppendFlags | gitfu/__main__.py:76-78 | The remaining flags are appended in order. |
| EntryPoint.PlaceOk | gitfu/__main__.py:67-80 | The reinsertion succeeds iff no left-over item stood after the last help flag. Otherwise `help_flags_index[index]` is indexed past its end. |
| EntryPoint.PlacePermutation | gitfu/__main__.py:67-80 | On success the new left-over is a permutation of the left-over plus the help flags. |
| EntryPoint.ParseArgs | gitfu/__main__.py:23-80 | The method computes `ParsedArgs`. |
| EntryPoint.NoHelpFlagsPassThrough | gitfu/__main__.py:64-65 | Without help flags the parser's answer is returned as it is. |
| EntryPoint.HelpFlagsPutBack | gitfu/__main__.py:63-80 | With help flags: the parse succeeds iff every left-over item is indexed and no later than the last flag. It then returns the left-over together with the flags, as a permutation. |
| EntryPoint.TrailingHelpFlag | gitfu/__main__.py:67-80 | `gitfu run status -h` hands on `status -h`. |
| EntryPoint.LeadingHelpFlagRaises | gitfu/__main__.py:67-80 | `gitfu run -h status` raises IndexError. |
| EntryPoint.SplitExtRoot | gitfu/__main__.py:100 | `splitext(item)[0]` is a prefix of the name. |
| EntryPoint.DotIndex | gitfu/__main__.py:100 | The last dot of the name, or the end when there is none. |
| EntryPoint.ShimNames | gitfu/__main__.py:99-108 | No script name contains `_`, and there are not more names than entries. |
| EntryPoint.ShimNamesFrom | gitfu/__main__.py:99-108 | A name is listed iff some entry not starting with `_` gives it, with its extension dropped and `_` turned into `-`. |
| EntryPoint.SplitExtPlain | gitfu/__main__.py:100 | `base.ext` loses exactly `.ext`. |
| EntryPoint.DotOfPlain | gitfu/__main__.py:100 | The dot of `base.ext` sits right after `base`. |
| EntryPoint.Blocks | gitfu/__main__.py:109-116 | One shell function per script name, which calls the binary of the same name. |
| EntryPoint.ShimStartsWithGit | gitfu/__main__.py:90-118 | The shim always starts with the `git` function calling `gitfu run`. With no scripts it is only that function. |
| EntryPoint.TrailingDigits | gitfu/__main__.py:133 | The maximal run of digits at the end of a directory name (the `\d+$`). |
| EntryPoint.AscendLoop | gitfu/__main__.py:134-140 | The loop of `os.path.split` computes `Ascend`. |
| EntryPoint.AscendSpec | gitfu/__main__.py:135-140 | The loop ends on a prefix of the start that is a `python3.N` directory, or one that `split` no longer shortens. |
| EntryPoint.BinaryDirectory | gitfu/__main__.py:121-148 | NotImplementedError, with the fixed message, is raised iff the ascent reached `/`. Otherwise the result is `realpath(join(d, '../../bin'))` of the directory reached. |
| EntryPoint.BashShim | gitfu/__main__.py:83-85 | A non-empty `--directory` is used as it is. Otherwise the shim is built on the binary directory, and fails exactly when that lookup fails. |
| EntryPoint.RunEntry | gitfu/__main__.py:13-20 | `init` prints the shim of the parsed directory, or raises what building it raised. Any other mode hands `argv[0]` plus the left-over on. A parse error escapes. |

## Left out

- Process I/O is not modelled. Git is an oracle over a log of issued commands, and stdout, stderr and the exit code are abstracted to `Completed(stdout)` or `Failed(stderr)`. Streaming (`capture=False`) is a flag on the command.
- `gitfu/core/git.py`, `gitfu/main.py`, `gitfu/commands/status.py` and `setup.py` are not part of this model. `git.run` appears only through the oracle. The `main()` that `__main__.run` calls is a `Delegate` result.
- argparse is a parameter. The parsed options of each script are given values, and `parse_known_args` is a function argument in `EntryPoint`. `argv or None`, help text and usage errors are not modelled. Printing help is `SystemExit(0)`.
- Strings are sequences of characters. `lower`/`upper`, whitespace and `splitlines` use ASCII and `\n` only. Unicode case mapping and the other line breaks (`\r`, `\x0b`, `\x1c` …) that Python's `splitlines` honours are left out.
- Set iteration order is not modelled. Where the source iterates over a set (`local_branches`, `remote_branches`), the model uses first-appearance order. The contracts about those sets speak only of membership and counts, and the confirmation list is sorted.
- `os.path.realpath`, `os.listdir`, `os.path.isdir` and `__file__` are parameters (`Install`, `isDir`). `realpath` does not resolve links in the model.
- EntryPoint.TrailingDigits: the regex `(?P<prefix>.*?)\/python3\.\d+$` is an explicit predicate. The predicate takes `$` as the end of the string, which leaves out Python's match just before a final newline. `\d` is taken as the ASCII digits only.
- SwitchGitBranch.HandleRetriesOnce: the discard and stash handlers have only TODO bodies, so they issue no command. They do parse the blocking files first.
- Check: KeyboardInterrupt arrives only as an answer at a prompt. An interrupt while git runs is not modelled.
- Shell.ExitStatus: an escaping KeyboardInterrupt gives status 130, which is what a shell reports after the interpreter ends itself by SIGINT. The signal itself is not modelled.
- `_clear_screen` is one `Cleared` event. The choice between `cls` and `clear` by `platform.system()` is not modelled.
- Check.HeaderParses assumes the file name contains no newline. The dedent of the header is then the fixed five lines.
- The script prints `e.stderr`, which the model takes as a string. Printing `b''` for captured bytes and `None` for an uncaptured stream are not modelled, except that a failed `realpath --relative-to` in `add_git_staged_files.py` prints `None`, since it captures nothing.
- `lru_cache` on `get_local_branches` and `_get_current_sha` is explicit state. It is an `Option` cache in `Check` and a single `git branch` in `RemoveBranchScript.Main`. `get_remote_branches` is called once per run, so it needs no cache.
- Quirks of the code that the model keeps as written:
  - An ambiguous local query in `remove-branch` prints the candidates in set order and exits 0.
  - No local match does not fall through to the remote branches, because `_print_warning` raises AttributeError (AnsiColor has no YELLOW).
  - Declining the confirmation ends the command before the remote step.
  - A failed delete during `--prune` stops the remaining deletions.
  - The WIP reset after a switch never fires: `git log` prints the subject in quotes, and the code compares that with the bare marker.
  - The y/n prompts also accept an empty answer and `yn`, because the test is a substring test.
  - `colorize` adds the colour code plus 5 characters.
