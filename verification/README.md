# Multi-domain login relay, modelled in Dafny

The Drupal module `multi_domain_login` logs a user in on several domains
that share one user directory but no cookies. After a normal login on one
domain, the browser is sent round an ordered ring of configured domains.
On each domain a relay endpoint checks a time-bound HMAC token, opens a
session and redirects to the next domain. Once the next domain is the one
the flow started from (the "referrer", carried as a crc32 checksum), the
browser goes to the configured success page instead.

The model covers the three core files:

- `domain_ring.dfy` (module `DomainRing`) holds the pure ring logic of the controller:
  - which configured domain a request is on (first prefix match, else the request's own host);
  - where the locate loop stops;
  - PHP's `next($domains) ?: reset($domains)`;
  - walks round the ring, with the cycle and ring-closure lemmas.
- `controller.dfy` (module `LoginController`) holds the rest of the controller:
  - the token (`Hash`) and its expiry (`Expired`);
  - the per-hop login state machine `LoginOutcome`;
  - the planned next URL `PlannedUrl`;
  - the class `MultiDomainLoginController`, whose methods `GetRequestDomain`, `LoginUrl`, `DoLogin`, `Domain` and `Login` follow the PHP methods statement by statement and are proved equal to those functions.
  - The browser session is the one field that changes (`Anonymous` or `Authenticated(uid)`).
- `login_subscriber.dfy` (module `LoginSubscriber`) holds the login event subscriber. Its query bag is updated in place.
- `settings_form.dfy` (module `SettingsForm`) holds the settings form:
  - trimming, CRLF normalisation and splitting of the domains textarea;
  - the `implode` that shows the list;
  - the saved configuration.
- `php.dfy` (module `Php`) holds PHP semantics the others rely on: string truthiness, `str_starts_with` and integer-to-text conversion.

Collaborators the module only calls are parameters. They are the fields of
`LoginController.Services`:
- crc32, the HMAC and the site hash salt;
- the three alter hooks;
- the user storage and the request time.

The configuration is `LoginController.Settings`. Domains are identified only
through the checksum function.

Behaviour worth knowing that the model keeps from the code:
- `next(...) ?: reset(...)` treats an empty entry (or `"0"`) as "no next entry". An empty line in the domains list therefore sends the relay back to the first domain, and the domains after that line are not visited from there (`DomainRing.FalsyEntryWrapsToFirst`). The form keeps interior empty lines as empty entries (`SettingsForm.OuterBlanksDroppedInnerLinesKept`). The ring results (`WalkCycle`, `RingClosesAfterFullCircle`) are stated for well-formed rings: no falsy entry and pairwise distinct checksums.
- A request is placed on the first configured entry its URI starts with. When one entry is a prefix of a later one (`https://a.com` before `https://a.com.au`), a request on the longer domain is taken to be on the shorter one (`DomainRing.OverlappingEntriesResolveToFirst`), and the relay does not follow the ring from there. The end-to-end flow result (`FlowEndsAfterFullCircle`) is therefore stated for prefix-free lists, where a request on an entry resolves to that entry (`DomainRing.ResolveOwnEntry`).
- `login` plans the next URL whatever `doLogin` returned, from the session `doLogin` left (`PlannedUrl`, `Login`). An expired link or an unknown or blocked account leaves the session as it was, so the next relay URL carries the uid of whoever was logged in there already. A wrong hash on an anonymous session, or with force_logout on, leaves the session anonymous, so the next relay URL carries uid 0 (`LoginOutcome`).
- With `force_logout` on, a wrong hash still ends the existing session (`ForcedLogoutWithBadHash`).
- `str_replace("\r\n", "\n", ...)` is a single pass, so `"\r\r\n"` becomes `"\r\n"` (`SinglePassLeavesCr`). Browsers send textarea line breaks as CRLF; those become LF (`CrlfJoinBecomesLfJoin`), so a list shown and sent back is stored unchanged (`BrowserRoundTrip`).
- A success destination that `Url::fromUserInput` refuses (anything not starting with `/`, `?` or `#`, such as an absolute URL) makes the flow's last hop fail (`SuccessDestination`).

## Model

| member | source | states |
|---|---|---|
| DomainRing.FirstPrefix | src/Controller/MultiDomainLoginController.php:276-281 | the chosen index is a configured domain the URI starts with, no earlier domain is a prefix of the URI, and there is no index exactly when no domain is a prefix |
| DomainRing.Resolve | src/Controller/MultiDomainLoginController.php:267-281 | when some configured domain is a prefix of the URI, the result is the first such domain in list order; when none is, it is the request's scheme and host |
| DomainRing.Locate | src/Controller/MultiDomainLoginController.php:211-214 | when some entry has the current checksum, the locate loop stops at the first such entry |
| DomainRing.LocateFrom | src/Controller/MultiDomainLoginController.php:211-214 | with the array pointer at i, the loop stops at the first entry from i on that has the current checksum |
| DomainRing.NextIndex | src/Controller/MultiDomainLoginController.php:216 | the next position is always inside the list |
| DomainRing.NextWrapsAtLastEntry | src/Controller/MultiDomainLoginController.php:216 | after the last entry the relay goes back to the first |
| DomainRing.NextFollowsTruthyEntry | src/Controller/MultiDomainLoginController.php:216 | a non-empty following entry is the next domain |
| DomainRing.FalsyEntryWrapsToFirst | src/Controller/MultiDomainLoginController.php:216 | an empty or "0" following entry sends the relay back to the first entry |
| DomainRing.SingletonNextIsItself | src/Controller/MultiDomainLoginController.php:212-216 | in a one-entry list the next domain is that entry |
| DomainRing.ResolveOwnEntry | src/Controller/MultiDomainLoginController.php:276-281 | when no entry is a prefix of another, a URI made of an entry followed by any path resolves to that entry |
| DomainRing.OverlappingEntriesResolveToFirst | src/Controller/MultiDomainLoginController.php:276-281 | with `https://a.com` listed before `https://a.com.au`, a request on `https://a.com.au` resolves to `https://a.com` |
| DomainRing.DistinctIffLocatesItself | src/Controller/MultiDomainLoginController.php:211-214 | the locate loop stops at every entry's own index for that entry's checksum exactly when no two entries share a checksum |
| DomainRing.NextDomain | src/Controller/MultiDomainLoginController.php:212-216 | the next domain is itself a ring member, so the next hop's locate loop stops |
| DomainRing.NextOnWellFormed | src/Controller/MultiDomainLoginController.php:212-216 | on a well-formed ring, locating an entry's checksum finds that entry, and the next domain is the following entry, wrapping at the end |
| DomainRing.WalkFollowsRingOrder | src/Controller/MultiDomainLoginController.php:212-216 | following next j times from entry o lands on the j-th entry after o, counted round the ring |
| DomainRing.WalkStep | src/Controller/MultiDomainLoginController.php:211-216 | a walk on entry k whose checksum the locate loop finds at k goes next to the entry `next() ?: reset()` picks from k |
| DomainRing.WalkCycle | src/Controller/MultiDomainLoginController.php:212-216 | following next as many times as there are entries returns to the starting domain |
| DomainRing.RingClosesAfterFullCircle | src/Controller/MultiDomainLoginController.php:212-218 | for a flow started on entry o, hop j (1 <= j < n) closes the ring exactly when j = n - 1: never earlier, never later |
| DomainRing.SingletonRingAlwaysCloses | src/Controller/MultiDomainLoginController.php:212-218 | on a one-entry ring every later hop closes the ring |
| LoginController.Domains | src/Controller/MultiDomainLoginController.php:295-300 | the configured list after the domains alter hook (definition; used by every ring property below) |
| LoginController.RequestDomain | src/Controller/MultiDomainLoginController.php:267-287 | the checksum of the first configured domain the URI starts with, else of the request host, after the domain alter hook (definition; `RequestOnEntry` and `GetRequestDomain` state its properties) |
| LoginController.Hash | src/Controller/MultiDomainLoginController.php:376-381 | the HMAC of timestamp, uid and e-mail keyed by the hash salt followed by the password hash (definition; `IssuedHashVerifies`, `PasswordChangeChangesHash` and `TimestampBoundIntoHash` state its properties) |
| LoginController.Expired | src/Controller/MultiDomainLoginController.php:386-394 | a link is expired once more than `timeout` seconds separate the request time from its timestamp (definition; `ExpiryBoundary` and `ExpiredLinkIgnoresAccount` state its properties) |
| LoginController.ExpiryBoundary | src/Controller/MultiDomainLoginController.php:386-394 | a link exactly `timeout` seconds old is still valid; one second later it is expired |
| LoginController.PasswordChangeChangesHash | src/Controller/MultiDomainLoginController.php:376-381 | the key includes the password hash, so with a key-sensitive HMAC a changed password changes the expected hash |
| LoginController.HashDataBindsTimestamp | src/Controller/MultiDomainLoginController.php:377-379 | messages signed for different timestamps (same account and uid) differ, because the decimal text of an integer determines it |
| LoginController.TimestampBoundIntoHash | src/Controller/MultiDomainLoginController.php:376-381 | with an HMAC that tells messages apart, changing a link's timestamp (to escape expiry) changes the hash it would need |
| LoginController.LoginOutcome | src/Controller/MultiDomainLoginController.php:305-371 | status is 200 or 403. It is 200 exactly when the link is not expired, the account exists and is active, and either a session exists without force_logout or the hash matches. The session changes only for a live link and a usable account when the session was anonymous or force_logout is on. When the session was anonymous or force_logout is on, 200 means the browser is now logged in as the requested uid, and 403 on a live link with a usable account means it is now anonymous |
| LoginController.ExpiredLinkIgnoresAccount | src/Controller/MultiDomainLoginController.php:310-313 | an expired link gives 403 with the session unchanged, whatever the user storage holds |
| LoginController.IdempotentReentry | src/Controller/MultiDomainLoginController.php:333-339 | an existing session without force_logout gives 200 and keeps the session, whatever hash is presented |
| LoginController.ForcedLogoutWithBadHash | src/Controller/MultiDomainLoginController.php:340-366 | with force_logout, an existing session is logged out, and a wrong hash then gives 403 with an anonymous session |
| LoginController.IssuedHashVerifies | src/Controller/MultiDomainLoginController.php:349-359 | the hash issued for an unchanged active account at T logs an anonymous browser in as that account with 200 |
| LoginController.OldTokenRefusedAfterPasswordChange | src/Controller/MultiDomainLoginController.php:349-366 | a hash issued under the old password gives 403 and leaves the browser anonymous |
| LoginController.PlannedUrl | src/Controller/MultiDomainLoginController.php:197-256 | the URL targets the next domain. When the referrer check is on and the next domain's checksum is the referrer, the URL is the success URL (configured path or front page, request langcode) exactly when `fromUserInput` accepts the configured path, and an error otherwise. In every other case it is a relay URL carrying the same referrer and langcode, the current account id, the request time and that account's hash, or an error exactly when that account cannot be loaded |
| LoginController.SuccessPath | src/Controller/MultiDomainLoginController.php:220-221 | an empty or "0" `redirect_success` means the front page, anything else is the configured path (definition; `SuccessDestination` states how it is used) |
| LoginController.SuccessDestination | src/Controller/MultiDomainLoginController.php:218-226 | on the last hop, an empty or "0" destination gives the front page, a destination starting with `/`, `?` or `#` gives that path, and any other destination is an error |
| LoginController.EntryHopRelays | src/Controller/MultiDomainLoginController.php:155-161 | the entry hop never ends the flow: it yields a relay URL whose referrer is the current domain's checksum |
| LoginController.RelayLogsInOnNextHop | src/Controller/MultiDomainLoginController.php:238-251 | a relay URL planned on one domain gives status 200 on the next domain of the same installation, provided the link has not expired and the account is still active: the account logs in there, or a session already there is kept |
| LoginController.FlowEndsAfterFullCircle | src/Controller/MultiDomainLoginController.php:152-256 | on a well-formed, prefix-free ring with the identity domain hook, a flow entered on any listed domain relays at every hop before the last of the full circle, and at that last hop gets the success URL exactly when its destination is accepted |
| LoginController.RequestOnEntry | src/Controller/MultiDomainLoginController.php:267-300 | on a prefix-free list with the identity domain hook, a request whose URI is an entry followed by any path is on that entry's checksum |
| LoginController.HopRequest | src/Controller/MultiDomainLoginController.php:177-256 | the request of hop j, made on the domain the previous hop's URL targets, is on the j-th domain of the walk from the entry domain |
| LoginController.MultiDomainLoginController.GetRequestDomain | src/Controller/MultiDomainLoginController.php:267-287 | the foreach with break yields the checksum of the altered first-prefix domain, or of the request host |
| LoginController.MultiDomainLoginController.LoginUrl | src/Controller/MultiDomainLoginController.php:197-262 | the while loop over the domains and the terminal/relay choice give the planned URL passed through the URL alter hook |
| LoginController.MultiDomainLoginController.DoLogin | src/Controller/MultiDomainLoginController.php:305-371 | the status returned and the new session are those of LoginOutcome for the old session |
| LoginController.MultiDomainLoginController.Domain | src/Controller/MultiDomainLoginController.php:152-169 | the response is a 303 with max-age 0 to the URL planned with the current domain as referrer and the referrer check skipped |
| LoginController.MultiDomainLoginController.Login | src/Controller/MultiDomainLoginController.php:177-192 | the session after the call is LoginOutcome's. The 303 goes to the URL planned from that session with the referrer check on, whatever status the login produced |
| LoginController.MultiDomainLoginController.UserLogout | src/Controller/MultiDomainLoginController.php:341 | `user_logout()` leaves the browser anonymous |
| LoginController.MultiDomainLoginController.UserLoginFinalize | src/Controller/MultiDomainLoginController.php:352 | `user_login_finalize()` authenticates the browser as the given uid |
| LoginSubscriber.SubscribedEvents | src/EventSubscriber/UserLoginSubscriber.php:61-66 | `onUserLogin` listens to the login event at priority -100, below the default priority 0, so it runs after default listeners |
| LoginSubscriber.RedirectedQuery | src/EventSubscriber/UserLoginSubscriber.php:74-87 | on `user.reset` or `multi_domain_login.login` the query is unchanged. On any other route `destination` is the relay entry URL. No other key is added and every other entry keeps its value |
| LoginSubscriber.ParameterBag.Set | src/EventSubscriber/UserLoginSubscriber.php:85 | writing one key replaces that key only |
| LoginSubscriber.UserLoginSubscriber.OnUserLogin | src/EventSubscriber/UserLoginSubscriber.php:74-87 | the request's query after the handler is RedirectedQuery of the query before, with the URL generated for `multi_domain_login.domain` |
| SettingsForm.TrimLeft | src/Form/MultiDomainLoginForm.php:101 | the result is a suffix of the text, preceded only by blanks, and does not start with a blank |
| SettingsForm.TrimRight | src/Form/MultiDomainLoginForm.php:101 | the result is a prefix of the text, followed only by blanks, and does not end with a blank |
| SettingsForm.Trim | src/Form/MultiDomainLoginForm.php:101 | the result is a contiguous part of the text with only blanks cut away on either side, and neither starts nor ends with a blank |
| SettingsForm.TrimKeepsTrimmed | src/Form/MultiDomainLoginForm.php:101 | text with no blank at either end is unchanged by trim |
| SettingsForm.TrimLeftBlanks | src/Form/MultiDomainLoginForm.php:101 | trim removes exactly a leading run of blanks |
| SettingsForm.TrimRightBlanks | src/Form/MultiDomainLoginForm.php:101 | trim removes exactly a trailing run of blanks |
| SettingsForm.ReplaceCrlf | src/Form/MultiDomainLoginForm.php:101 | CRLF replacement never lengthens the text, keeps the number of LFs, and changes nothing in text without CR |
| SettingsForm.SinglePassLeavesCr | src/Form/MultiDomainLoginForm.php:101 | the replacement is one pass: "\r\r\n" becomes "\r\n" |
| SettingsForm.ReplaceCrlfCons | src/Form/MultiDomainLoginForm.php:101 | a character other than CR is copied and the replacement continues with the rest |
| SettingsForm.ReplaceCrlfSkipsCrFree | src/Form/MultiDomainLoginForm.php:101 | text without CR in front is copied unchanged and the replacement continues after it |
| SettingsForm.CrlfJoinBecomesLfJoin | src/Form/MultiDomainLoginForm.php:101 | CR-free entries joined with CRLF come out joined with LF |
| SettingsForm.Explode | src/Form/MultiDomainLoginForm.php:102 | splitting at LF gives one more piece than there are LFs, and no piece holds a LF |
| SettingsForm.ImplodeExplode | src/Form/MultiDomainLoginForm.php:102 | joining the pieces with LF gives back the text |
| SettingsForm.ExplodeImplode | src/Form/MultiDomainLoginForm.php:102 | splitting a LF-join of a non-empty list of LF-free entries gives back the list |
| SettingsForm.Implode | src/Form/MultiDomainLoginForm.php:80 | the entries joined with LF (definition; `ImplodeSeparators`, `ImplodeExplode` and `ExplodeImplode` state its properties) |
| SettingsForm.ImplodeSeparators | src/Form/MultiDomainLoginForm.php:80 | the shown text starts with the first entry and, for LF-free entries, holds exactly one LF between neighbours and no other |
| SettingsForm.CleanDomains | src/Form/MultiDomainLoginForm.php:101-102 | the stored list has at least one entry and no entry holds a LF. It has one entry more than the normalised text has LFs, and joined with LF it is the trimmed text with CRLF turned into LF |
| SettingsForm.BlankTextareaGivesOneEmptyEntry | src/Form/MultiDomainLoginForm.php:101-102 | an empty or all-blank textarea is stored as one empty entry, not an empty list |
| SettingsForm.OuterBlanksDroppedInnerLinesKept | src/Form/MultiDomainLoginForm.php:101-102 | blanks around the whole textarea are dropped, while the lines inside, empty ones included, are stored as entries |
| SettingsForm.DisplayThenSave | src/Form/MultiDomainLoginForm.php:101-102 | a displayable stored list, shown joined with LF and saved again, is stored unchanged. Displayable means no CR or LF in an entry, no blank at the two outer ends, and non-empty end entries when there are several |
| SettingsForm.BrowserRoundTrip | src/Form/MultiDomainLoginForm.php:80-102 | a displayable stored list, shown and sent back by a browser with CRLF line breaks, is stored unchanged |
| SettingsForm.SubmittedSettings | src/Form/MultiDomainLoginForm.php:97-104 | the saved configuration has no `actions`, holds the cleaned domains list, and otherwise has exactly the submitted keys with their submitted values |
| SettingsForm.DomainsDefault | src/Form/MultiDomainLoginForm.php:80 | the textarea gets a default text exactly when the stored domains value is a list |
| SettingsForm.SaveThenDisplay | src/Form/MultiDomainLoginForm.php:80 | after a save the textarea shows the trimmed submitted text with CRLF turned into LF |
| SettingsForm.ConfigStore.SubmitForm | src/Form/MultiDomainLoginForm.php:96-107 | multi_domain_login.settings becomes SubmittedSettings of the submitted values; every other configuration is unchanged |

## Left out

- Cryptography and checksums. crc32, `Crypt::hmacBase64`, `Settings::getHashSalt` and base64 are uninterpreted `Services` fields. `hash_equals` is string equality; its constant-time behaviour is not modelled. Properties that need the HMAC to depend on its key take that as a requirement (`KeySensitive`).
- URL generation. `Url::fromRoute`, `fromUserInput`, `setAbsolute`, language options and `toString` give an abstract `Url` record. The multi-needle `str_replace` host rewrite is simplified to "the URL's base is the next domain". For a list in which one entry is a prefix of another, PHP's rewrite can produce a different host (`https://a.com` replaced inside `https://a.com.au` gives `https://a.com.au.au`); that is not modelled.
- Alter hooks. The domains, domain and URL alter hooks are opaque functions in `Services`. Properties about the URL are stated for `PlannedUrl`, before the URL hook. The end-to-end flow (`HopRequest`, `FlowEndsAfterFullCircle`) is stated for a domain hook that changes nothing.
- PHP errors. Two PHP exceptions are modelled as `None`: the type error of a relay hop for a session whose account the user storage cannot load, and the `InvalidArgumentException` of `Url::fromUserInput` for a success destination that does not start with `/`, `?` or `#`.
- Locate loop past the end. When the current domain's checksum matches no configured entry, the PHP loop runs past the end of the array, where `current()` is false and `crc32(false)` is the checksum of the empty string. It then never ends, unless the current checksum is that of the empty string, in which case it stops and `next() ?: reset()` picks the first entry. `LoginUrl`, `Domain` and `Login` require the current domain to be in the list (`RequestInRing`) and model neither the hang nor that stop.
- Array pointer. The configured array's internal pointer is taken to start at the first entry.
- Logging, the page cache kill switch, `CacheableMetadata` and response objects are left out. Only the 303 status and max-age 0 remain (`Response`). `enable_extra_logging` and `redirect_error` affect nothing else in the code.
- Session side effects. `user_logout()` and `user_login_finalize()` are reduced to their effect on the session (session regeneration and login hooks are not modelled).
- Input types. The route's uid, timestamp and referrer are integers. A timestamp given as non-canonical text (leading zeros, non-numeric) is not modelled, and neither is a referrer route string that PHP's loose `==` against the crc32 value would still accept. An unset `timeout` (PHP null) is not modelled; `timeout` is an integer.
- The class doc comment's key_value/iframe scheme is not what the code does and is not modelled.
- `UserLoginEvent::EVENT_NAME` is defined in src/Event/UserLoginEvent.php, which is not part of this model; the event is the symbolic `UserLoginEvent`. Dispatch order among listeners is not modelled beyond the priority value.
- Form. Rendering in `buildForm` other than the domains default is left out; `getFormId` and `getEditableConfigNames` appear only as the constants `FormId` and `SettingsName`. Drupal's `cleanValues()` also drops its own internal keys (form id, token, build id, button); only `actions` is modelled. A missing or non-text domains value is read as "" (PHP's `trim(null)`).
- Form errors. Where PHP's `implode()` throws because the stored domains value is not an array, `DomainsDefault` gives None.
