# git-repo-summarizer, verified model of its core

The service takes a GitHub repository URL and returns an LLM-written summary of it. It has three steps:

- it fetches the repository's metadata, README and file tree from the GitHub API;
- it builds a bounded text context from them;
- it asks an LLM for a JSON object with `summary`, `technologies` and `structure`.

This project models the deterministic logic of those steps in Dafny and proves what the code promises.

- `outcomes.dfy` (module `Outcomes`):
  - `Option` and `Result`;
  - the Python exceptions that escape the services: `ValueError` (a `json.JSONDecodeError` among them), a plain `Exception`, and an exception raised by the HTTP client itself. The route answers the first with 400 and the others with 500;
  - the outcome of one HTTP GET: an answer with status and body, or a raised exception.
- `seqs.dfy` (module `Seqs`): slicing `s[:n]` (`Take`), order-preserving filtering, sub-sequences, and the generic "filter until the cap is reached" loop.
- `text.dfy` (module `Text`): the Python `str` operations the code uses, on `seq<char>`: `startswith`, `endswith`, ASCII `lower`, `count`, `rstrip`, `split` and `join`.
- `github_service.dfy` (module `GithubService`):
  - `parse_github_url`;
  - `fetch_repository`, over an abstract API function from request to HTTP outcome, so any of the three GETs may raise. The function also returns the list of requests issued, so "README and tree are not requested" can be stated.
- `repo_processor.dfy` (module `RepoProcessor`):
  - the file-selection loop, the README cut, and the key-file filter;
  - `fetch_file_contents`, over an abstract fetcher from path to outcome. The outcome is an HTTP answer or a raised exception. The dict it fills is an insertion-ordered list of entries.
  - the assembly of `context_parts`, the newline join, and the 20000/40000 cut.
- `llm_service.dfy` (module `LlmService`):
  - the credential check;
  - the in-order required-field loop;
  - the `technologies` normalisation;
  - the two `except` clauses that re-raise every in-`try` failure as a plain `Exception`.
  - The LLM call and `json.loads` together are an abstract function from the context to a reply. The reply is a call failure, a decode failure or a decoded object.

Two behaviours of the code worth knowing, both modelled as written:

- `parse_github_url` keeps empty segments: `"x//b"` gives `("", "b")`.
- The ignored-directory test looks at every `/`-separated component of a path, the file name included, so a file named `build` is skipped too.

## Model

| member | source | states |
|---|---|---|
| Seqs.Take | app/services/repo_processor.py:75 | `s[:n]` holds min(n, len(s)) elements and is a prefix of `s` |
| Seqs.TakeFiltered | app/services/repo_processor.py:52-69 | the loop that appends passing elements in order and stops at the cap returns the first `cap` elements of the order-preserving filter |
| Text.Count | app/services/repo_processor.py:65 | `count` is at most the length, and 0 exactly when the character is absent |
| Text.CountIsMultiplicity | app/services/repo_processor.py:65 | `count` is the number of occurrences: the character's multiplicity in the multiset of the string |
| Text.Lower | app/services/repo_processor.py:61 | `lower()` keeps the length, leaves no upper-case ASCII letter, moves each upper-case ASCII letter 32 code points up, and keeps every other character |
| Text.JoinOutline | app/services/repo_processor.py:107 | about `Text.Join`, which models `"\n".join(context_parts)`: a join starts with the first part and ends with the last, and is as long as all parts plus one separator between each two |
| Seqs.Filter | app/services/repo_processor.py:94 | a list comprehension with a condition is no longer than its input |
| Seqs.FilterMembers | app/services/repo_processor.py:94 | the comprehension holds only input elements that pass the condition, and every input element that passes is in it |
| Seqs.FilterIsSubsequence | app/services/repo_processor.py:94 | the comprehension keeps the survivors in input order |
| Text.RStrip | app/services/github_service.py:11 | `rstrip("/")` is a prefix of the input that does not end in `/`, and only `/` characters were removed |
| Text.Split | app/services/github_service.py:11 | `split("/")` yields one more piece than there are separators, and no piece holds the separator |
| Text.SplitNoSeparator | app/services/github_service.py:11 | a string without the separator splits into itself alone |
| Text.SplitAfterSeparator | app/services/github_service.py:11 | the piece before the first separator comes first, then the split of the rest, so empty pieces are kept |
| Text.JoinSplit | app/services/github_service.py:11 | joining the pieces of a split with the separator gives back the string |
| Text.SplitLastTwo | app/services/github_service.py:11-14 | the last two pieces of a split are whole trailing segments of the string |
| Text.SplitEndsWithSegments | app/services/github_service.py:11-14 | conversely, two separator-free whole trailing segments are the last two pieces of the split, with a third piece before them when anything precedes them |
| GithubService.ParseGitHubUrl | app/services/github_service.py:10-14 | succeeds exactly when the URL without trailing slashes contains `/`; otherwise raises `ValueError("Invalid GitHub URL")` |
| GithubService.ParseTakesLastTwoSegments | app/services/github_service.py:11-14 | owner and repo are whole trailing segments of the stripped URL. Neither holds `/`. The stripped URL ends with `owner/repo`, preceded by nothing or by a `/` |
| GithubService.ParseFindsLastTwoSegments | app/services/github_service.py:11-14 | conversely, when two `/`-free strings are whole trailing segments of the stripped URL, the parse returns exactly them |
| GithubService.ParseIgnoresTrailingSlash | app/services/github_service.py:11 | parse(u + "/") == parse(u) |
| GithubService.ParseKeepsEmptySegments | app/services/github_service.py:11-14 | empty segments are kept: for segments `x` and non-empty `b` without `/`, `x//b` parses to `("", b)` |
| GithubService.FetchRepository | app/services/github_service.py:17-63 | a failure is a `ValueError` or an HTTP client exception, and the latter exactly when the last request issued raised; every earlier request was answered. A bad URL fails before any request. Metadata, README and tree are requested in that order. A GET that raises ends the call after it. A metadata status other than 200 raises "Repository not found or inaccessible" after one request. Tree and then metadata bodies that are not JSON raise their `JSONDecodeError`. Otherwise the bundle has the metadata body, the README body or `""` by status, the decoded tree, and the parsed owner and repo |
| GithubService.FetchSucceedsIff | app/services/github_service.py:17-63 | a fetch succeeds exactly when the URL parses, the metadata GET answers 200, the README and tree GETs answer with any status, and the tree and metadata bodies are JSON; the bundle then names the repository the URL names |
| RepoProcessor.Eligible | app/services/repo_processor.py:55-66 | defines the conditions of lines 55-66, with the helper predicates written out: a path is appended exactly when no `/`-separated component is an ignored directory, it ends with no ignored extension, and it lowers to a `readme…` name, ends with one of the three manifests, or holds at most one `/`. The promises proved about the selection itself are in SelectedPathsQualify |
| RepoProcessor.SelectFiles | app/services/repo_processor.py:52-69 | the selection loop returns the first at most 15 eligible tree paths, in tree order |
| RepoProcessor.SelectionIsCappedPrefix | app/services/repo_processor.py:68-69 | at most 15 files are selected: min(15, k) of the k eligible paths, as a prefix of the eligible paths |
| RepoProcessor.SelectionInTreeOrder | app/services/repo_processor.py:52-69 | the selection is an order-preserving sub-sequence of the tree |
| RepoProcessor.SelectionCompleteBelowCap | app/services/repo_processor.py:52-69 | with fewer than 15 selected, every eligible tree path is selected |
| RepoProcessor.SelectedPathsQualify | app/services/repo_processor.py:55-66 | no selected path has a component in the ignored directories, the file name included, or ends with an ignored extension. Each one lowers to a `readme…` name, ends with one of the three manifests, or has at most one `/` |
| RepoProcessor.KeyFiles | app/services/repo_processor.py:94 | key files are an order-preserving sub-list of the selection, each ending with a key-file pattern, and every such selected file is among them |
| RepoProcessor.Put | app/services/repo_processor.py:33 | dict assignment: an existing key keeps its place and takes the new value, a new key is appended, other entries are unchanged |
| RepoProcessor.FetchedContents | app/services/repo_processor.py:18-42 | the dict has no more entries than requested paths, its keys are distinct, and no value is longer than 2000 characters |
| RepoProcessor.FetchFileContents | app/services/repo_processor.py:18-42 | the fetch loop's dict equals the per-path fold of the outcomes |
| RepoProcessor.FetchedContentsSound | app/services/repo_processor.py:24-39 | keys are distinct requested paths answered with 200, and each value is the first 2000 characters of its body. Every path answered with 200 is a key, so a non-200 answer or an exception drops only its own path |
| RepoProcessor.FetchedContentsOrder | app/services/repo_processor.py:24-42 | for distinct requested paths, the keys are the successful paths in request order |
| RepoProcessor.FetchedContentsLocal | app/services/repo_processor.py:24-28 | the result depends on the fetcher only at the requested paths |
| RepoProcessor.ContextParts | app/services/repo_processor.py:80-105 | the parts start with the seven base parts; in basic mode there are no others; any others are advanced mode's `""`, "File Contents:" and three parts per fetched file |
| RepoProcessor.AppendFileBlocks | app/services/repo_processor.py:102-105 | the loop appends header, content and end line per fetched file, in dict order |
| RepoProcessor.FileBlocksShape | app/services/repo_processor.py:102-105 | the blocks are three parts per file: `\n--- path ---`, the content, `--- end ---` |
| RepoProcessor.BuildContextParts | app/services/repo_processor.py:47-105 | filling `context_parts` in place yields the base parts, extended in advanced mode by the blocks of the fetched key files |
| RepoProcessor.BuildRepositoryContext | app/services/repo_processor.py:45-119 | the context is the newline join of the parts cut to 40000 (advanced) or 20000 characters: no longer than the limit, a prefix of the join, and the whole join when it fits |
| RepoProcessor.ReadmeTruncated | app/services/repo_processor.py:74-75 | the README part is at most 8000 characters, a prefix of the README, all of it when it fits, and exactly 8000 characters otherwise |
| RepoProcessor.BasicModeFetchesNothing | app/services/repo_processor.py:80-105 | in basic mode the parts are exactly the seven base parts, the same for every fetcher, so there is no "File Contents:" block |
| RepoProcessor.AdvancedModeFetchesOnlyKeyFiles | app/services/repo_processor.py:91-97 | in advanced mode only the selected key files are fetched: fetchers that agree on them give the same parts |
| RepoProcessor.FetchedKeyFilesQualify | app/services/repo_processor.py:94-97 | every fetched entry is a selected key file answered with 200, its content at most 2000 characters |
| RepoProcessor.AdvancedContentsBlock | app/services/repo_processor.py:96-105 | with no fetched content, the parts are the base parts. Otherwise they are the base parts, `""`, "File Contents:", and one block per fetched file. Each block's content is at most 2000 characters of a selected key file answered with 200 |
| LlmService.FindMissingField | app/services/llm_service.py:68-72 | reports nothing exactly when all of summary, technologies and structure are present; otherwise it reports the first missing one in that order |
| LlmService.FirstMissingIsUnique | app/services/llm_service.py:68-72 | the first missing field is unique |
| LlmService.Normalized | app/services/llm_service.py:75-76 | same keys; `technologies` ends up a list. A list is left unchanged and any other value becomes `[value]`. Every other field is unchanged |
| LlmService.NormalizedIdempotent | app/services/llm_service.py:75-76 | normalising twice is normalising once |
| LlmService.Rewrap | app/services/llm_service.py:84-89 | every failure inside the `try` leaves as a plain `Exception`: a decode error with the JSON prefix and its message, anything else with the call-failed prefix and its message |
| LlmService.GenerateSummary | app/services/llm_service.py:36-89 | with no key, a `ValueError` before any LLM call; otherwise one call on the context, each failure inside the `try` re-raised as a plain `Exception` with its prefix, and success returns the normalised object with every required field (details below) |

`LlmService.GenerateSummary` states:

- With no key, it raises `ValueError("OPENAI_API_KEY environment variable is not set")` and makes no LLM call.
- With a key, it makes exactly one call, on the context.
- A call failure becomes `Exception("LLM API call failed: …")`.
- A decode failure becomes `Exception("Failed to parse LLM response as JSON: …")`.
- A missing field becomes `Exception("LLM API call failed: Missing required field in LLM response: <first missing field>")`.
- Otherwise it returns the normalised object, which has every required field and a list `technologies`.
- A `ValueError` escapes exactly when the key is missing.

## Left out
- HTTP I/O: the `httpx` clients, URLs, headers, 30 s timeouts and `async`/`await`. The API GETs and the raw-file GETs are abstract functions to an HTTP outcome; a raised exception is one outcome, and its kind is not modelled beyond "not a `ValueError`".
- JSON decoding:
  - whether `.json()` raises on a body, and its message, is an abstract `jsonError` parameter;
  - reading the "tree" member's paths from the tree JSON is an abstract `decodeTree` parameter;
  - the decoded metadata is kept as the response text;
  - a tree JSON whose top level is not an object, on which `.get` raises, is not modelled.
- `str(selected_files)`: Python's list repr is an abstract `render` parameter.
- LangChain and OpenAI: the model name, temperature, timeout and the message objects. The call and `json.loads` are one abstract `llm` function of the context.
- Prompt loading and `USER_PROMPT_TEMPLATE.format`: the model hands the context itself to `llm`.
- A decoded LLM reply whose top level is not a JSON object.
- Logging: it has no behavioural effect.
- The FastAPI app, routes and Pydantic schemas.
  - The route maps `ValueError` to 400 and everything else to 500.
  - Because of the wrapping shown in `GenerateSummary`, a missing LLM field therefore ends as a 500.
- Text.Lower: lowers ASCII letters only. No other character lowers to a letter of "readme", so the README test is exact.
- FetchFileContents: the fetcher is a pure function, so a path requested twice gets the same answer both times.
- RepoProcessor.FetchedContentsOrder: assumes distinct requested paths. Without that assumption, FetchedContentsSound still gives distinct keys.
