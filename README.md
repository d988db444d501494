# qbittorrent_throttle in Dafny

A model of the throttle controller of `qbitorrent_throttle.py`, a command-line
tool that logs in to a qBittorrent Web API and then, on request, pauses all
torrents, resumes all torrents, and sets the global download and upload rate
limits. The model covers what the tool decides. It does not cover how it talks
to the API.

- **Rate conversion** (module `Rates`). A rate given in KB/s becomes a limit in
  bytes/s. The sentinel `-1` becomes `0`, which means unlimited, and any other
  rate `r` becomes `r * 1024`.
- **`format_speed`** (modules `Rates` and `Decimal`). It turns a limit into the
  text used in messages: `"Unlimited"` for 0, otherwise the quotient truncated
  toward zero followed by `KB/s`. Python's printing of that quotient is
  modelled as a decimal writer. A separate reader is its partner, and the two
  are proved inverse in both directions.
- **The remote service** (module `Remote`). The class `Client` holds the two
  global limits, the login state and the log of calls the tool has issued.
  The tool does not trust the service to apply a limit write, so each write
  takes a `WriteEffect` chosen by the environment:
  - `Applied` stores the requested value;
  - `Dropped` keeps the old value;
  - `Overridden(v)` leaves some other value `v`.

  The login outcome is likewise an input: the call returns, or it raises
  `LoginFailed` or `APIConnectionError`.
- **The controller** (module `ThrottleTool`, class `Throttle`). It mirrors the
  Python class step by step:
  - the connection check;
  - `throttle_download` and `throttle_upload`: read the limit; stop with
    success if it already equals the target; otherwise write once, read
    again, and fail exactly when the second read still shows the old value;
  - pause-all and resume-all.

  `RunMain` and `IssueCommands` mirror `main`: check the connection, then
  issue stop, start, download and upload in that fixed order, each only when
  requested.
- **The specification on values** (module `Controller`). It defines:
  - `Throttled`: the outcome of one throttle call;
  - `ConnectionOk`: the result of the connection check;
  - `Dispatch`: the ordered command list for a request;
  - `Execute`: the limits and calls a run of commands produces.

  Each method of `Throttle` and `RunMain` is proved against these
  definitions. The lemmas then prove the properties of the definitions.

Behaviours of the code that the model states outright:

- Rates below `-1` are not rejected. They give a negative limit, which is
  sent to the service as it is (`Rates.Target`).
- `--stop --start` together issue a pause and then a resume.
- A second identical throttle call skips the write only when the first
  write landed (`ThrottleTwiceWritesOnce`). When the service drops writes,
  every call writes again and reports failure (`ThrottleTwiceDropped`).
- The write check only looks for a change. A service that ends up holding a
  value other than the target is still reported as a success
  (`SuccessWithoutTarget`).

## Model

| member | source | states |
|---|---|---|
| `Rates.Target` | qbitorrent_throttle.py:76 | `-1` gives 0, meaning unlimited. The limit is 0 exactly for rates `-1` and `0`. It is non-negative exactly when the rate is at least `-1`. |
| `Rates.TargetRecoversRate` | qbitorrent_throttle.py:91 | For any rate other than `-1`, the limit is a whole number of KB, and dividing it by 1024 gives back the rate the user gave. |
| `Rates.TruncatedKB` | qbitorrent_throttle.py:72 | `int(rate/1024)` truncates toward zero. The quotient `q` has the sign of the rate, or is 0, and `|q|*1024 <= |rate| < (|q|+1)*1024`. |
| `Rates.FormatSpeed` | qbitorrent_throttle.py:69-72 | The text is `"Unlimited"` exactly when the rate is 0. Otherwise it ends in `KB/s`, and what comes before reads back as the truncated quotient. |
| `Rates.FormatTarget` | qbitorrent_throttle.py:78 | The message text for a throttle target is `"Unlimited"` for `-1` and `0`. For any other rate it is that KB/s figure followed by `KB/s`. |
| `Rates.FormatSpeedExamples` | qbitorrent_throttle.py:69-72 | 0 gives `"Unlimited"`, 2048 gives `"2KB/s"` and 1536 gives `"1KB/s"`: truncation, not rounding. |
| `Rates.FormatSpeedSmallAndNegative` | qbitorrent_throttle.py:72 | 1023 and -1 give `"0KB/s"`. -2048 gives `"-2KB/s"`. |
| `Decimal.NatToDecimal` | qbitorrent_throttle.py:72 | The printed numeral has only digits and at least one of them. It has no leading zero, and it starts with `0` only for 0. |
| `Decimal.IntRoundTrip` | qbitorrent_throttle.py:72 | Reading the printed numeral of any integer gives that integer back. |
| `Decimal.ParseRoundTrip` | qbitorrent_throttle.py:72 | Every numeral the reader accepts is the one printed for its value. |
| `Remote.Client.AuthLogIn` | qbitorrent_throttle.py:44-45 | Login records one call and changes no limit. It reports which of the two caught errors was raised. Afterwards the session is logged in exactly when the call returned and was accepted. |
| `Remote.Client.TransferDownloadLimit` | qbitorrent_throttle.py:57-58 | Returns the stored download limit and records one read. |
| `Remote.Client.TransferSetDownloadLimit` | qbitorrent_throttle.py:60-61 | Records one write of the given limit. The stored download limit becomes whatever the write effect leaves, and the upload limit is untouched. |
| `Remote.Client.TransferUploadLimit` | qbitorrent_throttle.py:63-64 | Returns the stored upload limit and records one read. |
| `Remote.Client.TransferSetUploadLimit` | qbitorrent_throttle.py:66-67 | Records one write of the given limit. The stored upload limit becomes whatever the write effect leaves, and the download limit is untouched. |
| `Remote.Client.TorrentsPause` | qbitorrent_throttle.py:105 | Records one pause-all call and changes nothing else. |
| `Remote.Client.TorrentsResume` | qbitorrent_throttle.py:110 | Records one resume-all call and changes nothing else. |
| `Controller.Throttled` | qbitorrent_throttle.py:74-87 | If the target equals the current limit: success, one read, no write, limit unchanged. Otherwise: read, one write of the target, read again, and failure exactly when the limit still equals the value read first. A faithful service always gives success and the target. A dropping service gives failure unless the target was already set. |
| `Controller.ThrottleTwiceWritesOnce` | qbitorrent_throttle.py:89-94 | Throttling twice to the same rate after the first write landed: the second call only reads and succeeds. The two calls write once in all, or not at all when the target was already set. |
| `Controller.ThrottleTwiceDropped` | qbitorrent_throttle.py:95-100 | When the service drops writes, both calls write and both report failure. |
| `Controller.SuccessWithoutTarget` | qbitorrent_throttle.py:83-87 | A service that ends up holding a value other than both the old value and the target is reported as a success. |
| `Controller.ConnectionOk` | qbitorrent_throttle.py:41-55 | The check succeeds exactly when login returns and the session reports being logged in. Either caught error gives false. |
| `Controller.Dispatch` | qbitorrent_throttle.py:122-131 | No command when not connected. Otherwise pause is issued exactly when `--stop` is given, resume exactly when `--start` is given, and a throttle for each given rate with that rate. Commands appear in strictly increasing stop, start, download, upload order, so each at most once. |
| `Controller.Step` | qbitorrent_throttle.py:124-131 | One command of a run. Pause and resume issue their one call and change no limit. A throttle changes only its own limit, starts by reading it, and issues one call exactly when its target is already set. Every command issues one to three calls, with at most one write. |
| `Controller.Execute` | qbitorrent_throttle.py:124-131 | The commands of a run one after another. No command issues no call and changes nothing. A run of `n` commands issues between `n` and `3n` calls, with at most `n` writes. |
| `Controller.ExecuteLeavesOtherLimit` | qbitorrent_throttle.py:128-131 | A run with no throttle for one limit leaves that limit unchanged. It never reads that limit or writes to it. |
| `Controller.ExecuteWritesTargets` | qbitorrent_throttle.py:128-131 | Every write in a run of requested throttles writes the target of the rate requested for that limit. |
| `Controller.RunProperties` | qbitorrent_throttle.py:122-131 | A failed connection check issues nothing and leaves both limits unchanged. Any write is the target of the requested rate. A limit the request does not name ends where it started. |
| `Controller.StopThenLimitDownload` | qbitorrent_throttle.py:124-129 | When the download limit is not already 512000, `--stop -D 500` issues pause-all, then a read, a write of 512000 and a read. The limit ends at 512000 when the write lands and stays as it was when it is dropped. The upload limit never changes. |
| `Controller.UnlimitAlreadyUnlimited` | qbitorrent_throttle.py:76-79 | `-D -1` when the download limit is already 0 issues one read and no write, and changes nothing. |
| `ThrottleTool.Throttle.CheckConnection` | qbitorrent_throttle.py:41-55 | Returns `ConnectionOk` of the login outcome and records one login call. The session is logged in exactly when the check succeeds, and no limit changes. |
| `ThrottleTool.Throttle.ThrottleDownload` | qbitorrent_throttle.py:74-87 | The result, the new download limit and the calls appended to the log are exactly those of `Throttled`. The upload limit and login state are unchanged. |
| `ThrottleTool.Throttle.ThrottleUpload` | qbitorrent_throttle.py:89-102 | The result, the new upload limit and the calls appended to the log are exactly those of `Throttled`. The download limit and login state are unchanged. |
| `ThrottleTool.Throttle.PauseAllTorrents` | qbitorrent_throttle.py:104-107 | Always returns true, records one pause-all call and changes neither limit. |
| `ThrottleTool.Throttle.ResumeAllTorrents` | qbitorrent_throttle.py:109-112 | Always returns true, records one resume-all call and changes neither limit. |
| `ThrottleTool.RunMain` | qbitorrent_throttle.py:121-131 | Returns the connection result, and the session is logged in exactly when it is true. The final limits and the call log are the login followed by running `Dispatch` of the request from the limits the service held. |
| `ThrottleTool.IssueCommands` | qbitorrent_throttle.py:124-131 | For a connected run, the final limits and the calls appended are exactly those of running `Dispatch(true, request)`. The login state is unchanged. |

## Left out

- Reading the configuration from environment variables and parsing the boolean settings (qbitorrent_throttle.py:9-15): process configuration, not logic.
- Building the API client, the TLS-verification and debug-output options, and HTTP session handling (qbitorrent_throttle.py:18-36): the client library is not part of this model. The login is reduced to its outcome, `LoginResponse`.
- Logging and message text (qbitorrent_throttle.py:19-21, 38-39 and every `log_msg` call): output only, with no effect on behaviour. `format_speed` is modelled because it is a pure function, but the messages that use it are not.
- argparse flag syntax (qbitorrent_throttle.py:115-120): only the parsed request is modelled, as two optional rates and two flags.
- Exceptions other than `LoginFailed` and `APIConnectionError`, and network errors in the middle of an operation: the source does not handle them, so they end the process. In the model every remote call returns.
- Other clients changing a limit between the two reads of one throttle call: the two reads see the same value unless the tool's own write changed it.
- The state of individual torrents: pause-all and resume-all are recorded as calls in the log only.
- The value `main` returns (`False` after a failed connection check, `None` otherwise): modelled as the boolean connection result.
- Rates.FormatSpeed: the numeric part uses exact integer division truncated toward zero. Python computes `rate/1024` in double precision, which can round up to the next integer once `|rate|` exceeds 2^53. For such rates the model gives the exact quotient, so its text can differ from Python's.
- Controller.Throttled: Python raises `OverflowError` in `rate/1024` once the quotient is beyond the range of a double. The messages at qbitorrent_throttle.py:78, 80-81, 93 and 95-96 call `format_speed` before the write, even when debug output is off, so a rate such as `10**400` (or such a limit held by the service) ends the process before any write. The model has no such bound: it writes the target and reports the outcome.
- ThrottleTool.Throttle.ThrottleDownload: does not stop on the `OverflowError` above; it writes the target for every rate, as `Controller.Throttled` does.
- ThrottleTool.Throttle.ThrottleUpload: does not stop on the `OverflowError` above; it writes the target for every rate, as `Controller.Throttled` does.
