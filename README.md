# be.gs URL shortener — a Dafny model of its core

be.gs turns long URLs into short keys and back. This project models the core of both versions of the service:

- `begs.rb`, the current version, keeps its data in Redis.
- `main.rb`, the older version, keeps its data in Tokyo Tyrant.

The model covers four pieces of sequential logic:

1. **URL canonicalisation** (`urls.dfy`, module `Urls`).
   - The scheme-prefix rule applied before parsing. Ruby's `^` anchors at every line start, and the model keeps that.
   - `reassemble_url` in both versions. The begs.rb form rebuilds `scheme://host[:port]`, then the request URI, then `#fragment`. The main.rb form keeps only the path.
   - The port test is written as `(A) or (B) ? x : y`, which Ruby reads as `A or (B ? x : y)`. For http on a port other than 80 its value is `true`, so `host + true` raises a TypeError. The model's `Outcome.Raises` carries that exception out of `ping` and `shorten`.
   - Only URI::HTTP and URI::HTTPS have `request_uri`. begs.rb's pattern lets schemes such as "httpss://" through, and their URIs make the begs.rb form raise. The main.rb form uses `path`, which every URI has.
2. **The redirect resolver `ping`** (`resolver.dfy`, module `Resolver`).
   - The network is an oracle. A parser maps strings to `Option<Uri>`. A probe maps a URI to a status class: `Success`, `ClientError`, `Redirect(location)`, `Other` or `Raised` (section 15 of RFC 9110; the `Location` header is section 10.2.2).
   - begs.rb's `ping` recurses on `limit`, and Dafny proves it terminates.
   - For a URI that is neither http nor https, begs.rb's request line calls `request_uri` and its `rescue nil` swallows the NoMethodError. The error message on the next line calls `request_uri` again, outside any rescue, so `ping` raises.
   - main.rb's `Net::HTTP.get_response` needs `request_uri` too, so its `ping` raises on such URIs as well.
   - main.rb's `ping` never consults its limit. A redirect there calls `fetch`, which main.rb never defines, so it raises.
3. **The key allocator** (`base36.dfy`, `probing.dfy`, `begs.dfy`, `legacy.dfy`).
   - Keys are rendered by Integer#to_s(36), with a decoder and a round-trip lemma.
   - `new_key` is the begs.rb probing loop. `Table.Probe` is main.rb's loop, with its condition as written.
   - `rand` is a supplied sequence of draws: `rand(n)` reads the next draw modulo `n`.
   - The source loops have no bound. Running out of draws stands for a loop that never returns (`Outcome.Diverges`).
4. **shorten / expand / inc_hit_count over the key-value store**.
   - `Begs.Application` holds the Redis store as a `map<string, Value>` field. `Legacy.Table` holds the Tyrant table as a `map<string, string>` field.
   - Each state-changing method is tied to a specification function (`ShortenSpec`, `HitSpec`).
   - The lemmas in `begs_proofs.dfy` and `legacy.dfy` are about those functions.

Quirks of the source that the model keeps:

- The guard lines that compute a value and discard it are kept as no-ops. A `be.gs` host is probed like any other.
- Short links, their counters and the reverse index all share the `begs::url:` namespace.
- The key handed back is `key.split(/:/)[3]`, with Ruby's removal of trailing empty fields.
- main.rb's probe loop stops only on a key that is already taken.

The model follows the code, not the intent its comments state:

- The self-host checks ("don't try to loop on ourselves" at begs.rb:50, "no circular loops back to us" at main.rb:55) compute a value and discard it, so they reject nothing.
- The other guards of main.rb's `ping` that are meant to "bomb out" (main.rb:41-53) discard their values too.
- The allocators have no attempt budget. The comment at begs.rb:86 admits the loop could run for a very long time.
- Request errors: begs.rb rescues them and returns nil (begs.rb:63-67). main.rb's `Net::HTTP.get_response` (main.rb:62) has no rescue, so they raise.

Because the namespace is shared, shortening the same URL twice is idempotent only when the first call's new entries did not land on the raw URL's own reverse-index entry. `BegsProofs.ShortenIdempotent` states that hypothesis.

## Model

| member | source | states |
|---|---|---|
| `Ruby.JoinFields` | begs.rb:105 | joining the colon-separated fields of a string with colons gives back the string |
| `Ruby.SplitAt` | begs.rb:105 | split(/:/)[n] is the n-th colon-separated field; it is nil exactly when every field from the n-th on is empty, because Ruby drops trailing empty fields |
| `Ruby.DecimalInjective` | begs.rb:16 | distinct port numbers print differently with to_s |
| `Base36.Encode` | begs.rb:79 | Integer#to_s(36) gives a non-empty string of base-36 digits with no ':' |
| `Base36.DecodeEncode` | begs.rb:79 | decoding the base-36 rendering of n gives n |
| `Base36.EncodeInjective` | begs.rb:79 | two numbers with the same base-36 rendering are equal |
| `Base36.EncodeLength` | begs.rb:79 | a number below 36^p has at most p base-36 digits |
| `Urls.WithScheme` | begs.rb:44 | the string handed to URI.parse is the input, or "http://" + input; it is the input exactly when the pattern matches at some line start |
| `Urls.WithSchemeIdempotent` | begs.rb:44 | the output of the prefix step always matches the pattern, so applying the step to it leaves it unchanged |
| `Urls.WithSchemeOneLine` | begs.rb:44 | on one-line input, "http://" is prepended unless the input starts with "http", zero or more "s", then "://" |
| `Urls.WithExactScheme` | main.rb:46 | main.rb hands URI.parse the input, or "http://" + input; it is the input exactly when "http://" or "https://" starts some line |
| `Urls.WithExactSchemeIdempotent` | main.rb:46 | the output of main.rb's prefix step always matches its pattern, so the step is idempotent |
| `Urls.WithExactSchemeOneLine` | main.rb:46 | on one-line input, main.rb prepends "http://" unless the input starts with exactly "http://" or "https://" |
| `Urls.ExactSchemeIsScheme` | main.rb:46 | every input main.rb's pattern accepts, begs.rb's pattern accepts too |
| `Urls.RequestUri` | begs.rb:16 | the request URI is non-empty and starts with "/" (a "/" is supplied when the path lacks one) |
| `Urls.Reassemble` | begs.rb:14-17 | when reassemble_url yields a string, the URI is http or https and the string starts with scheme + "://"; otherwise it raises |
| `Urls.ReassemblePath` | main.rb:36-38 | a URL main.rb reassembles starts with scheme + "://" and ends with the path; otherwise it raises |
| `Urls.ReassemblePathAgainstCanonical` | main.rb:36-38 | for http and https, main.rb's reassemble_url is scheme://host, the port only when it is not the default, then the path, with query and fragment dropped; it raises for http on a port other than 80 |
| `Urls.ReassembleRaises` | begs.rb:16 | begs.rb's reassemble_url raises exactly for http on a port other than 80 and for any scheme other than http and https; main.rb's form (main.rb:37) raises exactly for the first |
| `Urls.ReassembledHasColon` | begs.rb:16 | every reassembled URL contains the ':' of its "://" |
| `Urls.AuthorityFields` | begs.rb:16 | split at its colons, the intended authority is the host, followed by the port only when it is not the scheme's default |
| `Urls.CanonicalUrlPort` | begs.rb:16 | in the intended canonical form the port is shown exactly when it is not the http or https default, and nothing is lost: for one scheme and colon-free hosts, two URIs share an authority exactly when host and port agree |
| `Urls.ReassembleAgainstCanonical` | begs.rb:14-17 | for http and https, reassemble_url equals the canonical form (scheme://host, non-default port, request URI, "#fragment" only when present), except for http on a non-80 port, where it raises |
| `Resolver.Ping` | begs.rb:34-76 | ping returns nil when limit <= 0; its result is always a URL, nil or an escaping exception; a parsed URI that is not http(s) raises before any request (begs.rb:63-67) |
| `Resolver.PingFollowsChain` | begs.rb:70-75 | a chain of k redirects between http(s) URIs ending in 2xx or 4xx, with k below the limit, resolves to the reassembly of the final URI |
| `Resolver.PingRedirectLimit` | begs.rb:37-41 | when the first `limit` answers are redirects, ping returns nil, so the default limit 5 follows at most 4 redirects |
| `Resolver.PingSound` | begs.rb:34-76 | every URL ping returns is the reassembly of the end of a 2xx/4xx-terminated redirect chain shorter than the limit |
| `Resolver.PingRaisesOnChain` | begs.rb:44-75 | a chain of redirects shorter than the limit that ends at a URI that is not http(s), or at a 2xx/4xx answer for http on a port other than 80, makes ping raise |
| `Resolver.PingRaisesSound` | begs.rb:34-76 | every time ping raises, such a chain shorter than the limit exists |
| `Resolver.PingResultHasColon` | begs.rb:72 | every URL ping resolves to contains a ':' |
| `Resolver.PingAcceptsOwnHost` | begs.rb:50-51 | a URL whose host is be.gs is resolved like any other, because the host check discards its value |
| `Resolver.LegacyPing` | main.rb:40-71 | main.rb's ping never returns false, because its guards discard their values; it yields a URL containing ':', nil or an exception |
| `Resolver.LegacyPingResolves` | main.rb:40-71 | main.rb's ping yields a URL exactly when the first answer for an http(s) URI is 2xx or 4xx and reassembly does not raise; it gives nil exactly for another status; parse failures, other schemes, redirects, request errors and a raising reassembly raise |
| `Probing.Schedule` | begs.rb:83-95 | the counter i and the exponent power, as the loop updates them, keep i within 0..10 and power at 2 or more |
| `Probing.ScheduleClosedForm` | begs.rb:83-95 | the power is 2 for the first 11 candidates and rises by one after every 10 more; the counter is 1 + (j - 1) mod 10 after the first |
| `Probing.ScheduleStep` | begs.rb:89-95 | the counter wraps from 10 to 1 exactly when the power rises by 1, so after the first 11 candidates the power rises after every 10 more |
| `Begs.Candidate` | begs.rb:78-80 | every candidate key is "begs::url:" followed by a non-empty, colon-free string of base-36 digits |
| `Begs.Allocate` | begs.rb:82-99 | a key new_key returns is not in the store |
| `Begs.AllocateFirstFree` | begs.rb:87-96 | the key new_key returns is a candidate drawn with the power in force, and every candidate drawn before it was taken |
| `Begs.AllocateExhausted` | begs.rb:88 | new_key finds nothing exactly when every candidate drawn was taken |
| `Begs.IncrStore` | begs.rb:147-150 | INCR touches only its own key and leaves every other entry unchanged |
| `Begs.Application.Exists` | begs.rb:132-135 | exists is membership in the store |
| `Begs.Application.Get` | begs.rb:137-140 | get returns the stored value, or nil when the key is absent |
| `Begs.Application.Set` | begs.rb:142-145 | set updates exactly one entry |
| `Begs.Application.Incr` | begs.rb:147-150 | incr counts a missing entry from 0, bumps a counter and leaves a non-integer entry as it is (Redis reports an error) |
| `Begs.Application.NewKey` | begs.rb:82-99 | the probing loop with counter i and exponent power returns exactly the allocator's first free candidate |
| `Begs.Application.Shorten` | begs.rb:101-126 | shorten's reply and new store are those of ShortenSpec: raw lookup, ping, canonical lookup, custom or random key, then three sets |
| `Begs.Application.Expand` | begs.rb:128-130 | expand returns the entry under "begs::url:" + key, or nil |
| `Begs.Application.DoExpand` | begs.rb:159-169 | do_expand answers 404 for an unknown key, the URL for a link payload, and fails for any other entry |
| `Begs.Application.IncHitCount` | begs.rb:171-174 | inc_hit_count leaves the store as HitSpec says: incremented only when the link exists |
| `BegsProofs.BareKeyOfNamespaced` | begs.rb:105 | split(/:/)[3] of "begs::url:" + s is s exactly when s is non-empty and colon-free; it is nil for an empty s |
| `BegsProofs.CandidateShape` | begs.rb:78-80 | every candidate is "begs::url:" followed by at most `power` base-36 digits, worth less than 36^power, and its bare key is that suffix |
| `BegsProofs.CustomKeyHonoured` | begs.rb:112-117 | a custom key shorter than 32 characters is used exactly when "begs::url:" + rkey does not yet exist |
| `BegsProofs.ChosenKeyFree` | begs.rb:112-117 | the key shorten uses, custom or random, was not in the store |
| `BegsProofs.ChosenKeySuffix` | begs.rb:112-117 | with a colon-free custom key (or none), the chosen key is "begs::url:" plus a colon-free suffix |
| `BegsProofs.ShortenWrites` | begs.rb:119-122 | when both lookups miss, shorten performs exactly three sets: key to the payload, key + ".count" to 0, and "begs::url:" + u to key; every other entry is unchanged |
| `BegsProofs.ShortenKeepsStore` | begs.rb:101-123 | shorten writes nothing unless both lookups miss, ping resolves and a key is obtained |
| `BegsProofs.ShortenFailedPing` | begs.rb:107-108 | when ping fails, shorten returns nil, or lets ping's exception escape, and writes nothing |
| `BegsProofs.ShortenIdempotent` | begs.rb:101-126 | a second shorten of the same URL, with ping answering as before, returns the same reply and writes nothing |
| `BegsProofs.ExpandAfterShorten` | begs.rb:120-130 | expanding the key returned by a fresh shorten yields the canonical URL |
| `BegsProofs.ShortenCustomKey` | begs.rb:112-125 | with a non-empty, colon-free custom key under 32 characters, shorten returns that key exactly when it was free |
| `BegsProofs.ShortenCustomKeyClobbered` | begs.rb:113-122 | a custom key equal to the canonical URL has its payload overwritten by the reverse-index entry, so that link no longer expands |
| `BegsProofs.ExpandUnknown` | begs.rb:162-165 | do_expand answers 404 exactly for keys that have no entry |
| `BegsProofs.HitCount` | begs.rb:171-174 | inc_hit_count increments key + ".count" only when "begs::url:" + key exists, changes no other entry, and otherwise leaves the store unchanged |
| `Legacy.Candidate` | main.rb:92 | a key main.rb draws is a string of base-36 digits that decodes to the draw reduced below 36^power (also main.rb:99) |
| `Legacy.FirstTaken` | main.rb:92-101 | a key the loop as written stops on is already in the table |
| `Legacy.FirstTakenIsFirst` | main.rb:92-101 | the loop as written stops on the first candidate that is in the table; every candidate before it was free |
| `Legacy.FirstTakenNever` | main.rb:93 | the loop as written never stops exactly when no candidate drawn is in the table |
| `Legacy.Table.HasKey` | main.rb:84 | has_key? is membership in the table |
| `Legacy.Table.Get` | main.rb:114 | get returns the stored value, or nil |
| `Legacy.Table.Put` | main.rb:106-107 | put updates exactly one entry |
| `Legacy.Table.Probe` | main.rb:85-101 | the while loop with i and power returns exactly FirstTaken's candidate |
| `Legacy.Table.Shorten` | main.rb:73-122 | shorten's reply and new table are those of Legacy.ShortenSpec |
| `Legacy.Table.Expand` | main.rb:137-149 | expand returns db.get(key): the stored value, or nil for an unknown key |
| `Legacy.Table.DoExpand` | main.rb:151-162 | do_expand redirects home for an empty key, answers 404 for an unknown key, and otherwise returns the URL |
| `Legacy.ShortenOverwritesTakenKey` | main.rb:93-107 | the key main.rb hands out was already in the table; the following put overwrites it, so that key now expands to the new URL instead of its old value |
| `Legacy.ShortenDivergesWithoutKeys` | main.rb:92-101 | on a table holding only URLs, shortening a new URL never returns |
| `Legacy.ShortenKnownUrl` | main.rb:111-117 | a URL already in the table returns db.get(u) with no writes |
| `Legacy.ShortenUnresolved` | main.rb:119-121 | when ping gives a falsy value, shorten returns false and touches nothing; ping's exceptions escape |
| `Legacy.ShortenIdempotent` | main.rb:84-117 | shortening the same URL twice returns the same key and writes nothing the second time |
| `Legacy.ExpandAfterShorten` | main.rb:106-107 | after shorten stores a new URL, expanding the returned key yields that URL |

## Findings

| source | as written | input that shows it | evidently intended | confidence | as-written member | corrected member |
|---|---|---|---|---|---|---|
| main.rb:93 | `while !db.has_key?(key)` stops only on a key already in the table, and `db.put(key, u)` then overwrites that entry | table {"ab" → "http://a.example/", "http://a.example/" → "ab"}, first draw 371 (base 36 "ab"), a new URL u: shorten returns "ab", and "ab" now expands to u | probe until a free key is found, as begs.rb:88 does | not executed | `Legacy.ShortenOverwritesTakenKey` | `Begs.Application.NewKey` |
| begs.rb:16 | `(A) or (B) ? x : y` parses as `A or (B ? x : y)`, so for http on a port other than 80 the value is `true` and `host + true` raises (main.rb:37 too) | a URI http://example.com:8080/ | "http://example.com:8080/", with the port shown exactly when it is not the scheme's default | not executed | `Urls.ReassembleRaises` | `Urls.ReassembleAgainstCanonical` |

The corrected allocator in the first row is begs.rb's own `new_key`, which the rest of the Redis model uses.

For the second row, the resolvers use the as-written reassembly, because they model what the code does. `Urls.CanonicalUrl` is the corrected form. `Urls.ReassembleAgainstCanonical` relates it to the as-written one on every http and https URI, and `Urls.CanonicalUrlPort` proves that it shows the port exactly when it is not the default and loses nothing.

## Left out

- Web glue is not modelled: Sinatra routes, `haml`, `send_file`, `redirect`/`halt` plumbing and `do_shorten`'s URL formatting. `DoExpand` reports which page would be served instead.
- The Redis connection and its ping-rescue-reconnect idiom are not modelled (network I/O). The store never fails, so the `rescue nil` around store calls never fires.
- Tokyo Tyrant `RDB` open/close/errmsg is not modelled (network I/O).
- Redis clients whose `exists` returns an integer are not modelled. `exists` is domain membership.
- `Net::HTTP` request construction is replaced by the probe oracle: SSL, the User-Agent header, HEAD in begs.rb versus GET in main.rb, and timeouts.
- `URI.parse` is an input function. A parsed URI always has a host string and a numeric port. Ruby gives no port for unknown schemes, but such URIs raise before a port is printed.
- The URI class is decided by the exact scheme string (`Urls.IsHttp`). Ruby's case-insensitive scheme lookup is not modelled; the parser oracle decides what scheme string it hands back.
- `Time.now` and `rand` are inputs: the creation time `now` and the sequence `draws`.
- JSON encoding is not modelled: the payload is the datatype `Payload(url, created)`. `AsString` renders it as JSON text without escaping. That rendering only matters when a lookup in `shorten` lands on a payload: the raw-URL lookup at begs.rb:104 or the canonical-URL lookup at begs.rb:110.
- `Begs.Application.NewKey`: the source loop is unbounded. The model stops when the supplied draws run out and returns None. `Shorten` then reports `Diverges`, so the unreachable `return nil unless key` (begs.rb:119) is never taken.
- `Legacy.Table.Probe`: it is bounded by the supplied draws in the same way. Running out means the source would still be looping.
- The `limit` parameter of main.rb's `ping` is left out. Its guard discards its value, and its other use, `fetch(resp['location'], limit - 1)` at main.rb:69, calls a method main.rb never defines, which raises whatever the limit is.
- Logging (`Logger`, `puts`) is not modelled.
- The check-then-write race between concurrent `shorten` calls is not modelled (concurrency).
