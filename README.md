# Gas-price normalisation of the Discord gas bot

This project models the deterministic core of `gas_bot.py`, a Discord bot that
polls one of three gas-price APIs (Etherscan, GasNow, ETH Gas Station). It
shows the prices in its presence line and answers a `!gas` command with an
embed. The model covers:

- **Adapters** (`sources.dfy`, module `Sources`). Each source's fetch function
  is modelled without its HTTP request. It takes the decoded response as a
  `Response(statusCode, json)` value:
  - `FetchGasNow` and `FetchStation` return `Option<Quote>`: `Some(q)` is the
    tuple the Python function returns, `None` a non-200 status, where the
    Python function falls off its end.
  - `FetchEtherscan`, and the dispatch `Fetch` over all three sources, return
    `Result<Option<Quote>, Error>`: `Success` wraps the same `Option`, and
    `Failure(e)` is an exception.

  The only exception an adapter can raise in the model is the `ValueError` of
  `int()` on an Etherscan string.
- **Python text conversions** (`pytext.dfy`, module `PyText`):
  - base-10 `int(s)`, with whitespace stripping, one sign and digit groups
    separated by single underscores. "Whitespace" here means what `int()`
    strips: ASCII tab to carriage return, space, and the non-ASCII characters
    `str.isspace()` accepts. It excludes U+001C to U+001F, which `int()` rejects;
  - `str(n)` of an integer;
  - the `repr` of the float t/10 that an ETH Gas Station price becomes.
- **Unit conversions** (`units.dfy`, module `Units`):
  - GasNow's wei-to-gwei floor division;
  - ETH Gas Station's minutes-to-seconds truncation.
- **Presence** (`presence.dfy`, module `Presence`). One iteration of the
  `on_ready` loop:
  - the if/elif source dispatch;
  - the choice of tiers (ETH Gas Station's entries 0, 2 and 3; the whole
    tuple otherwise);
  - the `⚡… | 🚶… | 🐢…` text;
  - the `TypeError` raised when the fetch returned `None`.
- **`!gas` command** (`gascommand.dfy`, module `GasCommand`):
  - the source dispatch, in which any name other than `etherscan` and
    `ethgasstation` falls to GasNow;
  - the embed title;
  - the fields, in order Slow, Average, Fast and, for ETH Gas Station only,
    Quick, with their names and values.

`wrappers.dfy` holds `Option` and `Result`.

The code does not always do the expected thing; the model follows the code:
- The code does not turn a non-200 response into a failure value. The fetch
  returns `None`, and the caller then raises `TypeError` when it unpacks or
  indexes that `None` (`FailedFetchSetsNoStatus`, `FailedFetchSendsNoEmbed`).
- The code does not catch a malformed Etherscan price either. `int()` raises
  `ValueError` (`EtherscanRejectsDecimal`).

## Model

| member | source | states |
|---|---|---|
| `PyText.ParseInt` | gas_bot.py:31 | `int(s)` succeeds exactly when the stripped text is an optional sign followed by digit groups |
| `PyText.StripLeading` | gas_bot.py:31 | the result is a suffix of the input that is empty or starts with a non-whitespace character |
| `PyText.StripLeadingDropsSpace` | gas_bot.py:31 | every character `StripLeading` drops is whitespace |
| `PyText.StripTrailing` | gas_bot.py:31 | the result is a prefix of the input that is empty or ends with a non-whitespace character |
| `PyText.StripTrailingDropsSpace` | gas_bot.py:31 | every character `StripTrailing` drops is whitespace |
| `PyText.Strip` | gas_bot.py:31 | what remains after stripping begins and ends with a non-whitespace character |
| `PyText.StripShape` | gas_bot.py:31 | `strip()` keeps one slice `s[i..j]`, and everything before `i` and after `j` is whitespace; with `Strip`'s own contract this is exactly the leading and trailing whitespace |
| `PyText.StripMembers` | gas_bot.py:31 | `strip()` keeps every character that is not whitespace and adds none |
| `PyText.ParseIntAlphabet` | gas_bot.py:31 | a string `int()` accepts holds a digit and only digits, whitespace, signs and underscores |
| `PyText.SeparatorRejected` | gas_bot.py:31 | any of the ASCII separators U+001C to U+001F in the text, even as padding, makes `int()` raise |
| `PyText.DecimalPointRejected` | gas_bot.py:31 | a string with a decimal point makes `int()` raise |
| `PyText.ParseShowInt` | gas_bot.py:31 | round trip: `int(str(n)) == n` for every integer |
| `PyText.ParsePadded` | gas_bot.py:31 | `int()` ignores any whitespace around a number |
| `PyText.ParsePaddedPlus` | gas_bot.py:31 | an explicit plus sign, with any whitespace around it, reads as the non-negative number after it |
| `PyText.ParseIntLeadingZero` | gas_bot.py:31 | a leading zero before a digit changes neither whether `int()` accepts the text nor its value |
| `PyText.ParseIntUnderscore` | gas_bot.py:31 | an underscore between two digits changes neither whether `int()` accepts the text nor its value |
| `PyText.StripPadded` | gas_bot.py:31 | `strip()` removes exactly the whitespace around a text that neither starts nor ends with whitespace |
| `PyText.StripAdjacent` | gas_bot.py:31 | stripping `x + y` strips only the front of `x` and the back of `y` when they meet at non-whitespace |
| `PyText.ShowInt` | gas_bot.py:101-103 | `str(n)` is a non-empty run of digits, with a leading minus only for negatives |
| `PyText.ShowIntInjective` | gas_bot.py:101-103 | different integers print differently |
| `PyText.ShowTenths` | gas_bot.py:67 | the float t/10 prints with a point and one decimal, whose last digit is the last digit of t |
| `PyText.ShowTenthsReadBack` | gas_bot.py:67 | the text of t/10 reads back as t/10: a minus exactly when t < 0, `int()` of the whole part gives abs(t) / 10, and the digit after the point is abs(t) % 10 |
| `PyText.Render` | gas_bot.py:112 | every formatted number is made only of digits, '-' and '.' |
| `PyText.RenderInjective` | gas_bot.py:112 | different numbers (int or tenths) format differently |
| `Units.GweiFromWei` | gas_bot.py:49 | the GasNow tier r satisfies r·10^9 ≤ wei < (r+1)·10^9, and 0 ≤ r ≤ wei for non-negative wei |
| `Units.GweiBucketUnique` | gas_bot.py:49 | that bound singles out the result |
| `Units.GweiFromWholeGwei` | gas_bot.py:49 | k·10^9 wei converts to exactly k gwei |
| `Units.GweiFromWeiMonotonic` | gas_bot.py:49 | more wei never gives fewer gwei |
| `Units.Truncate` | gas_bot.py:68-69 | `int(x)` truncates toward zero: s ≤ x < s+1 for x ≥ 0, s−1 < x ≤ s below |
| `Units.WaitSeconds` | gas_bot.py:67-69 | the wait s satisfies s ≤ 60·m < s+1 for m ≥ 0 minutes, and is non-negative |
| `Units.TruncationUnique` | gas_bot.py:68-69 | the truncation bound singles out the result |
| `Units.WholeMinutes` | gas_bot.py:67-69 | a whole number of minutes k gives exactly 60·k seconds |
| `Units.HalfMinute` | gas_bot.py:67-69 | 0.5 minutes is 30 seconds, and 0.51 minutes is truncated to 30 |
| `Sources.SourceNamed` | gas_bot.py:129-139 | a name selects a source exactly when it is that source's name |
| `Sources.NameRoundTrip` | gas_bot.py:129-134 | each source's name selects that source, so no two sources share a name |
| `Sources.Tuple` | gas_bot.py:31 | a quote is returned as 3 values (Etherscan, GasNow) or 8 (ETH Gas Station) |
| `Sources.FetchEtherscan` | gas_bot.py:27-35 | no quote iff the status is not 200; raises iff the status is 200 and a field does not parse; the quote holds the three parsed fields in order |
| `Sources.FetchGasNow` | gas_bot.py:45-53 | no quote iff the status is not 200; otherwise fast, standard and slow, each the floor of its wei value in gwei |
| `Sources.FetchStation` | gas_bot.py:63-73 | no quote iff the status is not 200; otherwise the four prices are raw/10 and the four waits are truncations of 60·minutes |
| `Sources.Fetch` | gas_bot.py:129-135 | only Etherscan can raise; a quote has the length its source's tuple has |
| `Sources.NoQuoteExactlyOnFailedStatus` | gas_bot.py:27-73 | every source returns None exactly when the status code is not 200 |
| `Sources.EtherscanOrder` | gas_bot.py:31 | Etherscan yields (FastGasPrice, ProposeGasPrice, SafeGasPrice), each read back as the integer it prints |
| `Sources.EtherscanRejectsDecimal` | gas_bot.py:31 | a decimal FastGasPrice makes the fetch raise `ValueError` on that field |
| `Sources.GasNowOrder` | gas_bot.py:49 | GasNow yields (fast, standard, slow), exact for whole gwei |
| `Sources.StationOrder` | gas_bot.py:66-69 | ETH Gas Station yields fastest, fast, average and safeLow in tenths, then their waits in that order, exact for whole minutes |
| `Presence.Published` | gas_bot.py:136-141 | three values, each one of the fetched tuple |
| `Presence.StatusSourceAsWritten` | gas_bot.py:129-139 | known names select their source; it fails exactly on the names that select no source, and then raises the `TypeError` of calling `NotImplemented` |
| `Presence.StatusSource` | gas_bot.py:129-139 | known names select their source; any other name raises 'Unsupported source', and only such names do |
| `Presence.SourceUpdate` | gas_bot.py:129-141 | after the dispatch, a presence text is set only after a 200 response; a fetch that returned None raises `TypeError` (subscript for ETH Gas Station, unpack otherwise) |
| `Presence.StatusUpdate` | gas_bot.py:127-141 | one iteration as written: a presence text only for a known name and a 200 response; an unknown name raises the `TypeError` of calling `NotImplemented` |
| `Presence.StatusUpdateIntended` | gas_bot.py:127-141 | the same iteration with the intended dispatch: an unknown name raises 'Unsupported source' |
| `Presence.StatusUpdateOnUnknownName` | gas_bot.py:138-139 | the iteration as written and as intended agree on known names and differ only in the exception on unknown ones |
| `Presence.StationPublishes` | gas_bot.py:134-136 | ETH Gas Station publishes (fastest, average, safeLow) and skips `fast` |
| `Presence.ThreeTierPublishes` | gas_bot.py:129-141 | Etherscan and GasNow publish their three tiers in order |
| `Presence.JoinedLayout` | gas_bot.py:112 | the status f-string is ⚡ and the fastest text, then space, vertical bar, space and 🚶 before the average text, then space, vertical bar, space and 🐢 before the slow text: each part and each separator sits at its offset, 9 separator characters in all |
| `Presence.StatusTextLayout` | gas_bot.py:112 | the presence text starts with ⚡ and the fastest price and ends with the slow price |
| `Presence.JoinedInjective` | gas_bot.py:112 | the status f-string determines the three space-free texts it joins |
| `Presence.StatusTextInjective` | gas_bot.py:112 | the presence text determines the three numbers it shows |
| `Presence.UnsupportedSourceRaisesTypeError` | gas_bot.py:138-139 | both dispatches agree on known names; on an unknown name the code raises `TypeError`, not 'Unsupported source' |
| `Presence.EtherscanStatus` | gas_bot.py:129-141 | an Etherscan 200 answer shows fast after ⚡, propose after 🚶 and safe after 🐢 |
| `Presence.StationStatus` | gas_bot.py:134-136 | an ETH Gas Station 200 answer shows fastest, average and safeLow as tenths |
| `Presence.FailedFetchSetsNoStatus` | gas_bot.py:127-141 | after a non-200 response no presence is set; the loop raises `TypeError` (subscript for ETH Gas Station, unpack otherwise) |
| `Presence.StatusOfQuote` | gas_bot.py:127-141 | once dispatch and fetch succeed, the presence shows fastest, average and safeLow as tenths for ETH Gas Station, and fast, standard and slow for the others |
| `Presence.ThreeTierStatusDeterminesQuote` | gas_bot.py:112 | for Etherscan and GasNow, two quotes with the same presence text are the same quote |
| `Presence.WholeTenths` | gas_bot.py:67 | a whole number of gwei, held as tenths, prints as its digits followed by `.0` |
| `Presence.StationExampleText` | gas_bot.py:112 | tenths 500, 300 and 200 print as 50.0 after ⚡, 30.0 after 🚶 and 20.0 after 🐢, joined by the status separators |
| `Presence.StationExample` | gas_bot.py:134-136 | a 200 ETH Gas Station answer with raw prices 500, 450, 300 and 200 sets exactly the presence text of ⚡50.0, 🚶30.0 and 🐢20.0 |
| `GasCommand.EmbedSource` | gas_bot.py:84-100 | the command uses the named source for known names and GasNow for any other |
| `GasCommand.RoundToTenth` | gas_bot.py:88-95 | rounding to one decimal gives a tenths value equal to the input |
| `GasCommand.GweiTextLayout` | gas_bot.py:86-102 | a field value is the price text followed by " Gwei" |
| `GasCommand.GweiTextInjective` | gas_bot.py:86-102 | a field value determines the price it shows |
| `GasCommand.WaitNameLayout` | gas_bot.py:86-93 | an ETH Gas Station field name is its tier heading, the wait's text, then " seconds" |
| `GasCommand.WaitNameInjective` | gas_bot.py:86-93 | under one tier heading, the field name determines the wait it shows |
| `GasCommand.Fields` | gas_bot.py:84-103 | 4 fields for ETH Gas Station and 3 otherwise |
| `GasCommand.FieldsInTierOrder` | gas_bot.py:84-103 | no field is inline, and they are named Slow, Average, Fast and (ETH Gas Station only) Quick, in that order |
| `GasCommand.GasReply` | gas_bot.py:82-104 | an embed is sent exactly when the fetch returned a quote, and it carries the fuel-pump title |
| `GasCommand.StationFields` | gas_bot.py:84-95 | ETH Gas Station's fields show safeLow, average, fast and fastest, each with its own wait in seconds |
| `GasCommand.ThreeTierFields` | gas_bot.py:96-103 | the other sources' fields show slow, standard and fast, without waits |
| `GasCommand.OtherNamesUseGasNow` | gas_bot.py:96-100 | any name other than etherscan or ethgasstation gets GasNow's embed |
| `GasCommand.FailedFetchSendsNoEmbed` | gas_bot.py:84-100 | after a non-200 response no embed is sent; the command raises `TypeError` |
| `GasCommand.SameQuoteForBoth` | gas_bot.py:82-141 | run against the same answer, the presence and the command are built from the same quote |
| `GasCommand.EmbedAgreesWithStatus` | gas_bot.py:84-141 | for any quote, whatever prices its presence text shows after 🐢, 🚶 and ⚡ are the values of the embed's first, second and last fields |

## Left out

- HTTP requests, the status-code source, JSON decoding, the ten-second sleep after a failed request and verbose printing are network I/O. Each fetch takes the decoded response as a parameter.
- The Discord client is a foreign library and is not modelled: bot creation, command registration, `ctx.send`, `change_presence`, `on_message` and `bot.run`. The model returns the embed and the presence text as values.
- The `while True` loop and `asyncio.sleep` between updates are scheduling. `Presence.StatusUpdate` models one iteration. The `continue` after the ETH Gas Station update makes that branch behave like the others.
- YAML configuration loading, argparse and logging setup are glue.
- Float arithmetic is modelled exactly, not by IEEE rounding:
  - `// 1e9` above 2^53;
  - the binary value of raw/10;
  - the product minutes·60 before truncation;
  - `round(float(x), 1)`;
  - Python's exponent notation for floats of 10^16 and more.
- `Sources.FetchStation`: takes ETH Gas Station's raw prices as whole numbers of tenths of a gwei. A fractional raw price, which would give two decimals, is not modelled.
- `PyText.ParseInt`: rejects non-ASCII decimal digits, which Python's `int()` accepts. It also accepts digit strings of any length, where current Python raises `ValueError` above 4300 digits (`sys.int_max_str_digits`).
- A response body missing an expected key (`KeyError`) is not modelled. Neither is an Etherscan `result` that is a message string rather than an object (`TypeError`). The raw records always carry their fields.

## Findings

| source | as written | input that shows it | evidently intended | confidence | as-written member | corrected member |
|---|---|---|---|---|---|---|
| gas_bot.py:139 | the fallback branch calls the constant `NotImplemented`, which is not callable, so it raises `TypeError` | `main(source='uniswap')` reaching `on_ready` | raise `NotImplementedError('Unsupported source')` | high (not executed) | `Presence.StatusSourceAsWritten` and `Presence.StatusUpdate` (shown by `Presence.UnsupportedSourceRaisesTypeError`, `Presence.StatusUpdateOnUnknownName`) | `Presence.StatusSource`, `Presence.StatusUpdateIntended` |
