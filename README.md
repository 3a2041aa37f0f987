# NFT mint sniping bot: a Dafny model of its decision logic

`bot.py` watches a contract for the newest transaction, copies that
transaction's call payload, overwrites the payload's first argument slot with
the operator's own address, and resubmits it with rising gas prices until one
submission is confirmed or the attempts run out. This project models the
deterministic logic under the network calls and proves what it guarantees:

- **PayloadSource** (`Indexer`): the polling loop of
  `get_latest_tx_hash_from_blockvision`. `Indexer.Poll` is the reference
  semantics of the loop as a recursive function. `Indexer.LatestTxHash` is the
  loop itself, with the branches as the source writes them, proved equal to
  `Poll`. Each HTTP exchange is an oracle value (`nat -> Exchange`: latency
  plus status and hash fields, or a request exception). Time is a virtual
  millisecond clock advanced by the 200 ms pacing sleep, the request latency
  and the pause each outcome triggers.
- **CalldataRewriter** (`Calldata`): `get_caldata_from_rpc` after the node
  call. The transaction lookup and the checksummed operator address are oracle
  values.
- **GasPolicy** (`GasPolicy`): `get_gas_price` and `get_gas_limit`. The node's
  gas estimate is an `Option<int>`: `None` means `estimate_gas` raised.
- **SubmissionEngine** (`Submission`): `snipe_mint`. Detection (polling, then
  the rewrite) runs first. Then comes the attempt loop with its nested
  three-try receipt loop. Each attempt is scripted by an oracle: its send
  raised, or three receipt answers of which only a prefix is asked for.
  `SnipeMint` returns the source's boolean, the number of attempts begun and
  the broadcasts made.
- **Marketplace URL path** (`MarketplaceUrl`): the path check of
  `get_contract_address_from_magic_eden`, with Python's `strip('/')` and
  `split('/')` written out. `is_address` and `to_checksum_address` are
  parameters.

Where the source's messages and comments suggest otherwise, the model follows
what the code does:

- A 403 reply is not fatal. Its `raise` (bot.py:96) sits inside the `try` and
  is caught by the generic handler (bot.py:130), so the request is counted and
  retried after one second. The same holds for any other non-200 status
  (bot.py:102).
- A 429 reply does not add to `request_count` (bot.py:97-100). Only the 10 s
  deadline bounds it. With 200 ms pacing, that deadline alone caps the loop at
  50 requests, 429s included.
- Calldata that arrives as `str` is used as-is, without lower-casing
  (bot.py:154-155). Only `bytes` input becomes lower-case hex.
- A payload of 10 to 74 characters is not rejected. It is padded out to 74,
  and whatever followed its selector is lost.

## Model

| member | source | states |
|---|---|---|
| `Calldata.HexOfBytes` | bot.py:152-153 | `bytes.hex()` gives two lower-case hex digits per byte, so n bytes become 2n hex characters |
| `Calldata.BytesOfHex` | bot.py:152-153 | reading an even-length hex string back gives half as many bytes |
| `Calldata.HexRoundTrip` | bot.py:152-153 | reading the hex text back gives exactly the original bytes, so normalising bytes to text loses nothing |
| `Calldata.RawCalldata` | bot.py:143-157 | a missing transaction or a missing `input` key is the missing-payload error; an input of another type is the unsupported-input error; `str` input is kept verbatim; n bytes become `0x` plus 2n lower-case hex digits that decode back to those bytes |
| `Calldata.ZFill` | bot.py:167 | `zfill(w)` keeps the string as its suffix and pads it on the left with `0` up to width w |
| `Calldata.Lower` | bot.py:167 | a string of hex digits of either case becomes lower-case hex with the same length and the same digit value at every position; a string already in lower-case hex is returned unchanged |
| `Calldata.LowerChar` | bot.py:167 | a hex digit of either case becomes a lower-case hex digit of the same value; a lower-case digit stays unchanged |
| `Calldata.BeneficiarySlot` | bot.py:167 | the new first argument slot is 64 lower-case hex characters: 24 zeros, then the address's 40 digits lower-cased, position by position with the same digit values, so the slot encodes the address left-padded to 32 bytes |
| `Calldata.Rewrite` | bot.py:166-169 | the output keeps the input's first 10 characters; characters 10..74 are the beneficiary slot, whatever the input had there; everything from 74 on is the input's own suffix; the length is 74 + max(0, \|input\| - 74); it starts with `0x` exactly when the input does |
| `Calldata.GetCalldata` | bot.py:138-179 | errors come in the code's order (missing payload, unsupported type, fewer than 10 characters, checksum failed, final check failed), each with its exact condition; success holds exactly when the payload has at least 10 characters, a beneficiary exists and the payload starts with `0x`, and the result is then the rewrite |
| `Calldata.SlotContentsIrrelevant` | bot.py:166-169 | two payloads that agree on the selector and on everything from character 74 rewrite to the same string |
| `Calldata.RewriteIdempotent` | bot.py:166-169 | rewriting a rewritten payload again changes nothing |
| `Calldata.RewriteKeepsLongLength` | bot.py:168-169 | a payload of at least 74 characters keeps its length: the rewrite overwrites in place |
| `Calldata.BytesInputAccepted` | bot.py:152-173 | byte input never fails the final `0x` check; it is accepted exactly when it holds at least the 4 selector bytes and a beneficiary exists |
| `Calldata.TextKeptVerbatim` | bot.py:154-155 | a `str` payload that starts with `0x` is rewritten as given, and its selector reaches the output unchanged (upper case included) |
| `GasPolicy.GasPrice` | bot.py:182-185 | the price never exceeds 100 gwei; it is (50 + 10a) gwei up to attempt 5 and exactly 100 gwei from attempt 5 on |
| `GasPolicy.GasPriceMonotone` | bot.py:182-185 | a later attempt never bids less than an earlier one |
| `GasPolicy.GasPriceIncreasingBelowCap` | bot.py:182-185 | up to attempt 5, every later attempt bids strictly more |
| `GasPolicy.GasPriceFirstAttempt` | bot.py:182-185 | attempt 1 bids 60 gwei |
| `GasPolicy.GasLimit` | bot.py:188-193 | the limit always lies in [50000, 150000]; it equals the estimate when the estimate is in range, the nearer bound when it is out of range, and 100000 when the estimate raised |
| `GasPolicy.GasLimitMonotone` | bot.py:191 | a larger estimate never yields a smaller limit |
| `Indexer.Poll` | bot.py:73-135 | the loop as a recursive function: a returned hash is non-empty and starts with `0x`; giving up without a hash happens only when the count reached 50 or the deadline passed |
| `Indexer.Classify` | bot.py:95-133 | under the handlers that catch them: only a 429 goes uncounted; a 200 reply whose first hash is non-empty and starts with `0x` is found; a 403 or another non-200 status is retried after 1 s; an empty list or a bad hash is retried with no pause; a request exception is retried, after 2 s if it timed out |
| `Indexer.Cost` | bot.py:91-132 | every iteration costs at least the 200 ms pacing sleep |
| `Indexer.Retries` | bot.py:109-133 | no more replies count than were received in the range |
| `Indexer.PollInvariants` | bot.py:73-135 | from any reachable state: the count stays within 50 and grows by exactly the non-429 replies; the clock equals the sum of the iteration costs; 200 × requests < deadline + 200; a returned hash is valid and comes from the first reply that carried one; giving up means the count reached 50 or the deadline passed |
| `Indexer.PollFromStart` | bot.py:73-135 | the same facts for the real start: zero requests, zero count, zero elapsed time |
| `Indexer.DefaultDeadlineBoundsRequests` | bot.py:76-91 | with the 10 s default deadline, at most 50 requests are issued, 429s included |
| `Indexer.FirstReplyFound` | bot.py:112-122 | a valid hash in the first reply is returned after exactly one request |
| `Indexer.ForbiddenIsRetried` | bot.py:95-133 | a 403 is counted and followed by another request after a 1 s pause; it does not end the search |
| `Indexer.ThrottlingIsNotCounted` | bot.py:97-100 | replies that are all 429 leave the count at 0; only the deadline ends the loop, after two requests |
| `Indexer.LatestTxHash` | bot.py:73-135 | the loop, with the source's branches, computes exactly `Poll` from the start; count ≤ 50 and count ≤ requests; 200 × requests < deadline + 200; a returned hash is non-empty and starts with `0x`; the final raise happens only when the count reached 50 or the deadline passed |
| `Submission.Detect` | bot.py:197-206 | detection fails with "no hash" exactly when polling finds none; when polling finds hash h, it succeeds with c exactly when the calldata step on h's transaction gives c, and otherwise fails with that step's own error; a success starts with `0x` and is at least 74 characters long |
| `Submission.FirstReceipt` | bot.py:229-241 | the index of the first lookup that returned a receipt: every earlier lookup raised |
| `Submission.LookupsMade` | bot.py:229-241 | each broadcast gets one to three receipt lookups |
| `Submission.Confirmed` | bot.py:229-235 | an attempt ends the run exactly when it was sent and some lookup among the three returned a receipt with status 1 while every lookup before it raised |
| `Submission.AttemptBroadcast` | bot.py:211-226 | an attempt puts one transaction on the wire when its send went through and none when the nonce lookup, signing or send raised |
| `Submission.Broadcasts` | bot.py:208-226 | attempts 1..n make at most n broadcasts; when attempt n was sent, the last broadcast is attempt n's, bidding `GasPrice(n)` and getting as many lookups as its receipts required |
| `Submission.BroadcastsWellFormed` | bot.py:208-247 | across attempts 1..n there are at most n broadcasts, in attempt order, at most one per attempt, each from an attempt whose send went through; each carries the rewritten calldata, the value, `GasPrice` of its own attempt (at most 100 gwei), the clamped gas limit, and 1 to 3 lookups |
| `Submission.SentAttemptsBroadcast` | bot.py:212-226 | every attempt whose send went through appears among the broadcasts |
| `Submission.SnipeMint` | bot.py:196-247 | failed detection means False, no attempt and no broadcast; otherwise at most max(0, max_attempts) attempts run; the broadcasts are exactly those of the attempts begun; no attempt before the last one was confirmed; True exactly when the last attempt's first receipt had status 1, and that attempt is the last broadcast; False means every attempt was used |
| `Submission.RunAttempts` | bot.py:208-247 | the attempt loop on known calldata: at most max(0, max_attempts) attempts; its broadcasts are exactly `Broadcasts` of the attempts begun; it stops at the first confirmed attempt, which is the last broadcast, and otherwise uses every attempt |
| `Submission.RunAttempt` | bot.py:211-242 | one attempt with its three-try receipt loop reports success exactly when the attempt is `Confirmed`, and broadcasts exactly what `AttemptBroadcast` says |
| `MarketplaceUrl.StripLeft` | bot.py:39 | `lstrip('/')` removes exactly the leading run of slashes |
| `MarketplaceUrl.StripRight` | bot.py:39 | `rstrip('/')` removes exactly the trailing run of slashes |
| `MarketplaceUrl.Strip` | bot.py:39 | `strip('/')` returns a contiguous slice of the input that neither begins nor ends with a slash, and every character before and after that slice is a slash |
| `MarketplaceUrl.Split` | bot.py:39 | `split('/')` gives at least one segment; no segment contains a slash; joining the segments with `/` gives the input back |
| `MarketplaceUrl.SplitJoin` | bot.py:39 | splitting undoes joining when no segment contains the separator |
| `MarketplaceUrl.JoinAppend` | bot.py:39 | joining two lists of segments equals joining each, with one separator between them |
| `MarketplaceUrl.SplitAppend` | bot.py:39 | splitting `a/b` gives the segments of `a` followed by those of `b` |
| `MarketplaceUrl.ContractFromSegments` | bot.py:42-49 | accepted exactly when there are at least 3 segments, seg0 is `mint-terminal`, seg1 is `monad-testnet` and seg2 is an address; the result is then the checksum of seg2; the invalid-address error comes exactly when the format matches but seg2 is not an address; every other case is the format error |
| `MarketplaceUrl.ContractFromPath` | bot.py:38-49 | a path is accepted only when, after stripping its slashes, it begins with `mint-terminal/monad-testnet/` |
| `MarketplaceUrl.ExtraSegmentsIgnored` | bot.py:42-43 | segments after the third never change the outcome |
| `MarketplaceUrl.StripUnchanged` | bot.py:39 | a path with no slash at either end is not changed by stripping |
| `MarketplaceUrl.TrailingSegmentsIgnored` | bot.py:39-43 | appending `/extra` to a path of at least 3 segments leaves the result unchanged |
| `MarketplaceUrl.JoinLast` | bot.py:39 | a join ends with the last character of its last segment |
| `MarketplaceUrl.SlashPathChecked` | bot.py:39-49 | a path `/seg0/.../segN` whose first and last segments are non-empty is checked segment by segment |
| `MarketplaceUrl.ListingPathAccepted` | bot.py:39-47 | `/mint-terminal/monad-testnet/<address>` yields the checksummed address when `<address>` is valid, and otherwise the invalid-address error |
| `MarketplaceUrl.EmptyAddressIsFormatError` | bot.py:39-49 | `/mint-terminal/monad-testnet/` loses its trailing slash to `strip`, leaving only two segments: a format error, not an address error |

`Indexer.Poll`, `Submission.Broadcasts`, `Submission.Confirmed` and
`MarketplaceUrl.ContractFromPath` are also the reference definitions that the
loop methods and lemmas above are stated against. `Submission.ThirdAttemptScenario` is a
client of `SnipeMint`. Attempts 1 and 2 fail on chain and attempt 3 is
confirmed on its second lookup. It shows that the run reports success after
exactly three broadcasts, the third one bidding 80 gwei.

## Left out

- Module-level setup (bot.py:9-32): the RPC connection, `load_dotenv` and
  account creation. It is I/O and secrets. The placeholder `YOUR_ADDRESS`
  enters only as the checksum oracle `Option<ChecksumAddress>`; the shipped
  placeholder would make it `None`.
- The network calls `requests.get`, `get_transaction`, `estimate_gas`,
  `get_transaction_count`, `sign_transaction`, `send_raw_transaction` and
  `wait_for_transaction_receipt`. They are foreign calls and appear only as
  oracle parameters. A failure of the nonce lookup, the signing or the send is
  one outcome, `SendFails`.
- The internals of `to_checksum_address` and `is_address`. They are
  Keccak-based library code, abstracted as the `ChecksumAddress` type and as
  function parameters.
- `time.sleep` and `time.time`. A virtual clock replaces them in the indexer.
  The submission engine has no deadline, so its sleeps (bot.py:241, 244) are
  not modelled.
- `urlparse`. `MarketplaceUrl` receives the parsed path, so URL syntax errors
  raised by the parser are not modelled.
- `convert_to_wei` (bot.py:250-275). It parses through floating point.
- `get_contract_address`, `run_sniping_bot` and `debug` (bot.py:21-23,
  55-70, 278-291). They are interactive input, printing and logging.
- Indexer replies whose JSON body cannot be decoded, and hash fields that are
  `null` or not strings. The model takes the list of hash fields with a
  missing field read as "". A `null` field behaves like "", and so does any
  falsy non-string (0, `false`, `[]`, `{}`): the `not tx_hash` test of
  bot.py:116 counts it with no pause. A truthy non-string has no
  `startswith`, so it reaches the generic handler (bot.py:130) and is counted
  after a one-second pause.
- Calldata.ZFill: does not model `zfill`'s handling of a leading sign,
  because its argument is always hex digits.
- GasPolicy.GasPrice: takes a natural attempt number and does not model
  negative attempts (which make `to_wei` raise below -5), because `snipe_mint`
  only passes attempts from 1 up.
- The nonce and the transaction hash returned by the send are not part of
  `Broadcast`. Each attempt asks for the 'pending' nonce (bot.py:213). An
  attempt that is still pending therefore makes the next attempt a new
  transaction with the next nonce, not a replacement of the pending one. The
  trace cannot show this.
- Byte calldata is taken to follow hexbytes 1.0 and later, where `.hex()`
  returns digits without a `0x` prefix. This agrees with the
  `raw_transaction` attribute used at bot.py:224. With an older hexbytes,
  bot.py:153 would produce `0x0x…`.
