# sd-listen-fds: socket-activation decoder, modelled in Dafny

The library has one operation, `get()`. A service manager passes sockets to a
process as inherited file descriptors, following the `sd_listen_fds(3)`
contract. `get()` decodes that contract from three environment variables:

- `LISTEN_PID`: the process the sockets are meant for;
- `LISTEN_FDS`: how many descriptors there are, numbered from 3;
- `LISTEN_FDNAMES`: an optional `:`-separated list of names, matched to the
  descriptors by position.

It returns the ordered list of `(optional name, descriptor)` pairs, or the
one error `MalformedEnv`.

The model is a pure function `Activation.Get`. Its inputs are the three
variables as `Option<string>` plus the current process id as a `u32`. Its
output is `Result<seq<Entry>, Error>`, and each descriptor appears as its
number.

- `wrappers.dfy`: `Option` and `Result`.
- `decimal.dfy`: Rust's `str::parse::<u32>`. It accepts one optional leading
  `+`, then at least one ASCII digit, with a value of at most 4294967295. The
  model mirrors the checked multiply-and-add loop, and it is proved against an
  unbounded reference value of the digit string.
- `split.dfy`: Rust's `str::split(':')`, empty fields included. Like the
  split iterator, it searches for the next colon and cuts there. It is proved
  to be the inverse of joining colon-free fields with `:`.
- `activation.dfy`: `get()` on Linux. The descriptor loop is modelled step by
  step, with the split iterator as explicit state. `Get`'s contract
  characterises the result exactly:
  - it fails if and only if `LISTEN_PID` is malformed, or `LISTEN_PID` names
    this process and `LISTEN_FDS` is malformed or too large;
  - it returns an empty list unless the protocol is engaged;
  - otherwise it returns `LISTEN_FDS` entries, and entry `i` has descriptor
    `3 + i` and the `i`-th name.
- `activation_properties.dfy`: what callers rely on, stated as lemmas. This
  covers each early exit, the overflow guard, the descriptor numbering, the
  naming rules, and the fact that the name list never affects failure or
  numbering. It also holds worked examples.

Notes on the source, where its behaviour is easy to misread:

- `env::var` fails for a variable that is unset and also for one that is not
  valid Unicode. The code treats both cases the same way, so both are `None`
  in the model. An undecodable `LISTEN_PID` therefore means "not engaged", not
  an error.
- The overflow guard rejects any count above `u32::MAX - 3`. It keeps every
  descriptor number the loop builds at or below 4294967294. That is the
  largest `u32` an `OwnedFd` can hold, because 4294967295 reinterpreted as an
  `i32` is -1, a value `OwnedFd` never holds. So the guard is exactly as
  strict as the `transmute` at src/lib.rs:34 needs. `DescriptorsAreFresh`
  proves the bound. Counts near it pass the guard, but whether the program
  then returns depends on reserving memory for that many entries; see
  "## Left out".
- The error's documentation (src/lib.rs:49-50) speaks of non-empty, malformed
  variables. The code does not test for emptiness: a `LISTEN_PID` set to the
  empty string, or an empty `LISTEN_FDS` addressed to this process, reaches
  `parse::<u32>()` and fails with `MalformedEnv`. The model follows the code
  (`EmptyVariableIsMalformed`).
- `from_str_radix` skips the overflow checks for inputs of at most eight
  digits. The model always uses the checked path, which gives the same value.
  The different `ParseIntError` kinds (empty, invalid digit, overflow) all
  become `None`, because `get()` maps every one of them to `MalformedEnv`.

## Model

| member | source | states |
|---|---|---|
| `Decimal.ParseU32` | src/lib.rs:14 | accepts exactly the `u32` literals (one optional `+`, at least one digit, value at most 4294967295) and returns the value they denote |
| `Decimal.Accumulate` | src/lib.rs:19 | the checked multiply-by-ten-and-add loop succeeds exactly when the whole string is digits with value within `u32`, and then yields that value |
| `Decimal.ParseFormatRoundTrip` | src/lib.rs:14 | parsing the decimal spelling of any `u32`, with or without a leading `+`, gives that number back |
| `Decimal.ParseRejectsNonDigit` | src/lib.rs:14 | any non-digit character except a single leading `+` (for example `-`, a space, a second sign) makes the parse fail |
| `Decimal.ParseRejectsEmpty` | src/lib.rs:19 | the empty string, a lone `+` and a lone `-` are rejected |
| `Decimal.ParseLeadingZero` | src/lib.rs:19 | a leading zero changes neither acceptance nor value |
| `Decimal.ParseBoundary` | src/lib.rs:19 | 4294967295 is accepted and 4294967296 is rejected |
| `Split.SplitColon` | src/lib.rs:27 | always at least one field, one more field than there are colons, no field contains a colon, and joining the fields with `:` gives back the input |
| `Split.SplitJoinRoundTrip` | src/lib.rs:27 | splitting colon-free fields joined with `:` gives back exactly those fields |
| `Split.SplitInnerEmptyField` | src/lib.rs:27 | `a::b` splits into `a`, the empty string and `b` |
| `Split.SplitTrailingColon` | src/lib.rs:27 | a trailing colon yields a final empty field |
| `Activation.Collect` | src/lib.rs:26-36 | the iterator-driven loop pushes exactly `count` entries, and entry `i` has descriptor `3 + i` and the `i`-th field as its name (none once the fields run out, or when the name list is empty); no descriptor number leaves `u32` |
| `Activation.Get` | src/lib.rs:10-38 | fails exactly on a malformed `LISTEN_PID`, or on a malformed or over-large `LISTEN_FDS` addressed to this process; is empty unless engaged; when engaged, has `LISTEN_FDS` entries with descriptor `3 + i` and name by position |
| `ActivationProperties.AbsentPidIsEmpty` | src/lib.rs:13 | an unset (or undecodable) `LISTEN_PID` gives an empty list whatever else is set |
| `ActivationProperties.MalformedPidFails` | src/lib.rs:14 | a `LISTEN_PID` that is not a `u32` gives `MalformedEnv` whatever else is set |
| `ActivationProperties.ForeignPidIsEmpty` | src/lib.rs:15-17 | a `LISTEN_PID` naming another process gives an empty list, even when `LISTEN_FDS` is missing or malformed |
| `ActivationProperties.AbsentCountIsEmpty` | src/lib.rs:18 | this process addressed and `LISTEN_FDS` unset gives an empty list |
| `ActivationProperties.MalformedCountFails` | src/lib.rs:19 | this process addressed and a `LISTEN_FDS` that is not a `u32` gives `MalformedEnv` |
| `ActivationProperties.OverflowGuardFails` | src/lib.rs:21-24 | this process addressed and a count above `u32::MAX - 3` gives `MalformedEnv` |
| `ActivationProperties.EmptyVariableIsMalformed` | src/lib.rs:13-19 | an empty `LISTEN_PID`, or an empty `LISTEN_FDS` addressed to this process, gives `MalformedEnv` rather than the "not engaged" empty list |
| `ActivationProperties.DescriptorsAreFresh` | src/lib.rs:29-35 | on success the descriptor numbers are strictly ascending and pairwise distinct, none is 0, 1 or 2, and none exceeds 4294967294, so none wrapped around |
| `ActivationProperties.UnnamedWithoutNameList` | src/lib.rs:26-33 | with `LISTEN_FDNAMES` unset or empty, every entry is unnamed |
| `ActivationProperties.NamesFollowFields` | src/lib.rs:26-36 | with a non-empty name list, entry `i` is named by field `i` while fields remain and is unnamed afterwards; there are exactly `LISTEN_FDS` entries, so surplus names are dropped |
| `ActivationProperties.NamesOnlyLabel` | src/lib.rs:13-27 | failure, entry count and descriptor numbers do not depend on `LISTEN_FDNAMES`; a failure is always `MalformedEnv` and carries no descriptors |
| `ActivationProperties.ThreeUnnamed` | src/lib.rs:26-38 | this process, count `3` and no name list give unnamed descriptors 3, 4, 5 in that order |
| `ActivationProperties.ShortNameList` | src/lib.rs:26-38 | count `3` with names `a:b` gives `a`, `b`, then an unnamed third descriptor |
| `ActivationProperties.EmptyFieldIsEmptyName` | src/lib.rs:26-38 | count `3` with names `a::b` names the middle descriptor with the empty string |
| `ActivationProperties.NonNumericCountFails` | src/lib.rs:19 | this process with count `abc` gives `MalformedEnv` |

## Left out

- Rebuilding an `OwnedFd` from a number with `mem::transmute` (src/lib.rs:34), and closing it on drop. This is unsafe resource handling inside the standard library. A descriptor is its number here, and the property that matters for ownership is that the numbers are distinct.
- `env::var` and `std::process::id()` read ambient process state, so they are parameters of `Get`. An unset variable and a non-Unicode one are both `None`.
- The non-Linux branch (src/lib.rs:40-43) always returns an empty list. It is a build configuration, not logic.
- The `Display` and `std::error::Error` impls (src/lib.rs:54-60) only format text.
- `Vec::with_capacity` (src/lib.rs:28) and the pushes (src/lib.rs:35): the model assumes the reservation and every push succeed, and returns `Ok` with `count` entries for every count up to 4294967292. The program does not: when `count` times the entry size exceeds `isize::MAX` (above roughly 134 million entries on 32-bit Linux) it panics with a capacity overflow, and when the allocator refuses a large reservation it aborts. For such counts the program never returns, so `Get`'s success case describes only counts whose memory can be reserved.
- examples/echo.rs is a demonstration program: a TCP accept loop, threads and socket I/O.
- Calling `get()` twice rebuilds ownership of the same descriptors twice. The callers have to avoid this; the code does not enforce it, so there is nothing to prove about the code.
- Strings are sequences of characters, not UTF-8 bytes. This changes nothing for the parser, because a multi-byte character is never an ASCII digit, and nothing for the split, because `:` is a single byte.
