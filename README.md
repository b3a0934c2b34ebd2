# CRM-API gateway and auth core, in Dafny

This project models the decision logic of the CRM-API gateway and its auth service, and proves properties of it.

- **Listing moderation state engine** (`StateProvider`). It decides a listing's next (State, SubState) by an ordered cascade of rules over four lookup tables. A second, flat form of the same rules (an ordered table of guarded rules, decided by the first rule that applies) is proved to decide every request alike.
- **Shared sentinel results** (`StateProviderSentinels`). The engine as written returns three shared result objects whose `Modified` property every call overwrites.
- **API scope check** (`AuthProvider`). It covers the role list, feed detection, wildcard scope types, role and path filtering, and the result flags.
- **Id obfuscation codec** (`IdCryptoProvider`). It covers the largest-prime helper, the salts, `Encrypt` and `Decrypt`, with the round trip `Decrypt(Encrypt(id)) == id`.
- **String helpers** (`StringExtentions`). It covers the South-African mobile number pattern (as an automaton), `Reverse` (in place on an array), `SplitInHalf` and `ToUppercaseFirst`.
- **Basic-authentication client secret parser** (`GatewaySecretParser`).
- **Legacy password hasher** (`GatewayPasswordHasher`). It covers the md5 and sha512 formats, the iterated digest loop and the hexadecimal encoding.
- **In-memory service registry** (`MemoryServiceRegistry`) and its `ServiceDefinition` equality (`ServiceDefinitions`).
- **Auth service entities** (`IdentityUser`, `User`). They cover the claim lists (`UserClaims`), soft delete, and setting and validating a password.

`Wrappers` holds `Option`, `Result` and `Outcome` (an exception is `Thrown`/`Fault` with the exception's type name). `NetStrings` holds the .NET string primitives the code uses: `IsNullOrWhiteSpace`, ordinal `StartsWith`/`EndsWith`/`IndexOf`/`Contains`, `Split`, `Trim`, `int.TryParse` and ASCII case folding.

External inputs become parameters:

- the clock (`now`, in ticks);
- the random number generators (the byte streams and the prefix size);
- `Guid.NewGuid` (an `id` argument);
- the HTTP request (claims, header values and the authenticated flag);
- UTF-8 with Base64 (a `Base64Codec` value, whose needed properties are the predicate `ValidCodec`);
- MD5, SHA-512, UTF-8 bytes and Base64 of bytes (a `Crypto` value; `ValidCrypto` fixes the digest lengths);
- `IEncryptor` (an `Encryptor` value);
- the base ASP.NET Identity hasher (a function);
- `BaseAdvert.Equals` (a function).

## Model

| member | source | states |
|---|---|---|
| StateProvider.EffectiveRequestedState | ApiGateway/Auth/StateProvider.cs:292-294 | the requested state used by the rules is never empty, and is the caller's whenever that is not empty |
| StateProvider.LookupTransition | ApiGateway/Auth/StateProvider.cs:338 | a table hit exactly when the current sub-state is not null and (sub-state, requested) is a key, and then that key's entry |
| StateProvider.AffiliateDecision | ApiGateway/Auth/StateProvider.cs:296-332 | rules 3 and 3.b report the caller's edit flag and never yield the premium fallback |
| StateProvider.ModeratorDecision | ApiGateway/Auth/StateProvider.cs:346-378 | rule 6 reports the caller's edit flag and never yields the premium fallback |
| StateProvider.PromotionDecision | ApiGateway/Auth/StateProvider.cs:381-409 | rule 7 reports the caller's edit flag and never yields the premium fallback |
| StateProvider.EditDecision | ApiGateway/Auth/StateProvider.cs:470-556 | rule 12 and the fallback report the caller's edit flag, and the premium fallback is unreachable because rule 12.b takes premium packages first |
| StateProvider.UserDecision | ApiGateway/Auth/StateProvider.cs:381-556 | rules 7 to 12 report the caller's edit flag and never yield the premium fallback |
| StateProvider.ChangeState | ApiGateway/Auth/StateProvider.cs:266-558 | every decision's Modified is the call's own isEdit |
| StateProvider.FirstMatchIsFirst | ApiGateway/Auth/StateProvider.cs:221-248 | a rule table decides exactly when some rule applies, and then as the first rule that applies, no earlier rule applying |
| StateProvider.FirstMatchAppend | ApiGateway/Auth/StateProvider.cs:221-248 | in two rule tables run one after the other, the first table's decision takes precedence and the second decides only when the first does not |
| StateProvider.FirstMatchShift | ApiGateway/Auth/StateProvider.cs:221-248 | running a table from an offset past a prefix is running the rest of the table |
| StateProvider.AccountRulesAgree | ApiGateway/Auth/StateProvider.cs:296-336 | rules 3, 3.b and 4 apply exactly to affiliate, CCAP and banned-account requests, in that order of precedence |
| StateProvider.ModeratorRulesAgree | ApiGateway/Auth/StateProvider.cs:346-378 | rule 6 applies exactly to moderators and decides as the moderator branch does |
| StateProvider.EditRulesAgree | ApiGateway/Auth/StateProvider.cs:470-556 | rules 12.a to 12.e and the fallback, as ordered guarded rules, always decide, and as the nested branch does |
| StateProvider.UserOnlyRulesAgree | ApiGateway/Auth/StateProvider.cs:381-468 | when one of rules 7 to 11 applies it decides as the user branch does; when none does the user branch falls through to rule 12 |
| StateProvider.UserRulesAgree | ApiGateway/Auth/StateProvider.cs:381-556 | rules 7 to 12, as ordered guarded rules, decide as the user branch does |
| StateProvider.RuleTableAgrees | ApiGateway/Auth/StateProvider.cs:221-558 | the flat first-match rule table and the nested cascade decide every request alike |
| StateProvider.EmptyRequestMeansActive | ApiGateway/Auth/StateProvider.cs:292-294 | an empty requested state is decided exactly as a request for "Active" |
| StateProvider.AffiliateRuleFirst | ApiGateway/Auth/StateProvider.cs:296-332 | for affiliate or CCAP content the role, the clock and even a banned account are ignored; the AffiliateMap entry decides with both checks off, or the unknown-state sentinel on a miss |
| StateProvider.AccountBanDominates | ApiGateway/Auth/StateProvider.cs:334-336 | short of the affiliate rules, a banned account's listing is (Rejected, AccountBan) whoever asks for whatever |
| StateProvider.ModeratorIgnoresListing | ApiGateway/Auth/StateProvider.cs:346-378 | a moderator's decision depends only on the account sub-state, the requested state and the edit flag |
| StateProvider.ModeratorRule | ApiGateway/Auth/StateProvider.cs:346-378 | unpaid accounts go to ActiveUnpaid or InactiveUnpaid, every other moderator request follows the ModerationMap or gets the unknown-state sentinel |
| StateProvider.PromotionRule | ApiGateway/Auth/StateProvider.cs:381-409 | an actively promoted listing goes to (Active, PostModeration) unless it asks for another state the no-edit map knows; premoderation check off, spam check on |
| StateProvider.UnpaidAccountRule | ApiGateway/Auth/StateProvider.cs:411-440 | an unpaid account's edit is held at (Pending, PreModeration); unedited Active or Inactive requests go to the unpaid sub-states |
| StateProvider.NoEditRule | ApiGateway/Auth/StateProvider.cs:442-468 | an unedited listing not in InactiveEdited follows the UserNoEditMap, with only the spam check on |
| StateProvider.EditRuleOrder | ApiGateway/Auth/StateProvider.cs:470-556 | first-time advertiser, then premium, then premoderated category, owner cars or give-away, then the UserEditMap, then the unknown-state sentinel, each with its flags |
| StateProvider.UnknownStatePremiumUnreachable | ApiGateway/Auth/StateProvider.cs:484-555 | no request ever yields the premium unknown-state result |
| StateProvider.NoEditEntry | ApiGateway/Auth/StateProvider.cs:97-156 | a present UserNoEditMap entry is what the lookup returns |
| StateProvider.ModeratorArchives | ApiGateway/Auth/StateProvider.cs:346-378 | a moderator archiving a paid account's listing gets (Archived, AdminArchived) |
| StateProvider.PreModeratedStaysPending | ApiGateway/Auth/StateProvider.cs:442-468 | an unedited listing in PreModeration asking to go live stays (Pending, PreModeration) |
| StateProvider.PromotedDeactivation | ApiGateway/Auth/StateProvider.cs:381-409 | a promoted, moderated listing its owner deactivates becomes (Inactive, Deactivated) |
| StateProvider.PremodCategoryHeld | ApiGateway/Auth/StateProvider.cs:495-506 | an edited listing in the Pets category is held at (Pending, PreModeration) |
| StateProvider.ChangeStateAdvert | ApiGateway/Auth/StateProvider.cs:575-620 | the decision for an advert reports it modified exactly when it differs from the stored advert |
| StateProvider.UnchangedAdvertIsNoEdit | ApiGateway/Auth/StateProvider.cs:575-620 | with a reflexive advert comparison, resubmitting the stored advert is never reported as modified |
| StateProviderSentinels.Sentinels.constructor | ApiGateway/Auth/StateProvider.cs:42-47 | three distinct shared result objects holding the sentinel fields |
| StateProviderSentinels.ChangeStateShared | ApiGateway/Auth/StateProvider.cs:42-47 | the call as written: all three sentinels' Modified become this call's isEdit, and a sentinel answer is the shared object itself |
| StateProviderSentinels.SentinelOverwritten | ApiGateway/Auth/StateProvider.cs:284-287 | two banned-account calls return the same object, and the first, an edit, ends up reporting not modified |
| AuthProvider.KnownAppsIgnoreCase | ApiGateway/Auth/AuthProvider.cs:20-27 | any source equal to a known application up to letter case is a known application, and so not a feed |
| AuthProvider.FeedRule | ApiGateway/Auth/AuthProvider.cs:58-60 | a missing or blank source is never a feed; any other source is a feed exactly when its lower-case form is none of "accounts", "admin", "android", "ios" and "web" |
| AuthProvider.RoleClaimsMembership | ApiGateway/Auth/AuthProvider.cs:48-56 | a value is among the role claims exactly when some claim of the role type carries it |
| AuthProvider.BuildRoles | ApiGateway/Auth/AuthProvider.cs:48-56 | the role list starts with "any" and holds exactly "any" and every role claim value |
| AuthProvider.Where | ApiGateway/Auth/AuthProvider.cs:75-83 | the filter keeps exactly the elements satisfying the predicate |
| AuthProvider.ApplicableScopes | ApiGateway/Auth/AuthProvider.cs:75-83 | exactly the scopes whose type matches the API (exactly or by wildcard), whose tags hold the method, and one of whose sub-claims is a role |
| AuthProvider.GeneralScopes | ApiGateway/Auth/AuthProvider.cs:85-102 | exactly the scopes without paths |
| AuthProvider.PathScopes | ApiGateway/Auth/AuthProvider.cs:91 | exactly the scopes one of whose paths is a case-insensitive prefix of the request path |
| AuthProvider.SelectScopes | ApiGateway/Auth/AuthProvider.cs:75-104 | without a path only general scopes apply; with a path, matching path scopes replace all others, and without any the general scopes apply |
| AuthProvider.IsApiInScope | ApiGateway/Auth/AuthProvider.cs:46-139 | root gets everything without the scopes; otherwise no selected scope gives all false, and a selection gives in-scope, create iff a scope says "create", user-scoped iff none says "any", moderator iff the role, repeat iff authenticated feed |
| IdCryptoProvider.SmallDivisor | ApiGateway/Auth/IdCryptoProvider.cs:137 | a composite number has a divisor whose square is at most the number, which makes the square-root bound of the trial division sound |
| IdCryptoProvider.IsPrime | ApiGateway/Auth/IdCryptoProvider.cs:132-143 | the trial division answers true exactly for primes |
| IdCryptoProvider.PrimeOfOurHash | ApiGateway/Auth/IdCryptoProvider.cs:145-159 | throws exactly for a non-positive length, gives 1 for 1, and otherwise the largest prime not above the length |
| IdCryptoProvider.CreateSalt | ApiGateway/Auth/IdCryptoProvider.cs:114-130 | a salt of the requested length, each character the alphabet letter the random byte selects modulo 62 |
| IdCryptoProvider.UrlSafe | ApiGateway/Auth/IdCryptoProvider.cs:109 | the URL-safe form holds no '+' or '/' |
| IdCryptoProvider.RestoreBase64 | ApiGateway/Auth/IdCryptoProvider.cs:28-40 | '-' and '_' are mapped back and only '=' is appended, at most two, making the length a multiple of four |
| IdCryptoProvider.RestoreUrlSafe | ApiGateway/Auth/IdCryptoProvider.cs:28-40 | restoring the padding and alphabet undoes the URL-safe form of any padded Base64 text |
| IdCryptoProvider.BeforeMarker | ApiGateway/Auth/IdCryptoProvider.cs:46 | the text before the marker is a prefix of the decoded text |
| IdCryptoProvider.Decrypt | ApiGateway/Auth/IdCryptoProvider.cs:22-75 | a blank input gives null |
| IdCryptoProvider.MarkerFound | ApiGateway/Auth/IdCryptoProvider.cs:46-52 | the salt length written before the marker is found and parsed back |
| IdCryptoProvider.SwapBack | ApiGateway/Auth/IdCryptoProvider.cs:56-61 | Decrypt's split with the longer first half on odd lengths undoes Encrypt's half swap |
| IdCryptoProvider.DecodeIdCodeRoundTrip | ApiGateway/Auth/IdCryptoProvider.cs:46-69 | decoding the salted, swapped, length-prefixed id gives back the id, whatever the salt |
| IdCryptoProvider.Encrypt | ApiGateway/Auth/IdCryptoProvider.cs:82-112 | a blank id throws; otherwise the result holds no '+', '/' or '=', and Decrypt gives back any id with no character above U+FFFF |
| StringExtentions.IsValidMobileNumber | ApiGateway/Extentions/StringExtentions.cs:13-28 | the automaton accepts exactly what the pattern matches: optional "+" and "27", or "0", then [6-9][1-9] and seven digits, optionally before a final newline |
| StringExtentions.NationalMobileNumberAccepted | ApiGateway/Extentions/StringExtentions.cs:13-28 | a national number is valid |
| StringExtentions.TrailingNewlineAccepted | ApiGateway/Extentions/StringExtentions.cs:13-28 | the pattern's `$` accepts a final newline |
| StringExtentions.InternationalMobileNumberAccepted | ApiGateway/Extentions/StringExtentions.cs:13-28 | "27" without a plus is accepted |
| StringExtentions.PlusInternationalMobileNumberAccepted | ApiGateway/Extentions/StringExtentions.cs:13-28 | "+27" is accepted |
| StringExtentions.LowOperatorDigitRefused | ApiGateway/Extentions/StringExtentions.cs:13-28 | a first subscriber digit below 6 is refused |
| StringExtentions.ZeroSecondDigitRefused | ApiGateway/Extentions/StringExtentions.cs:13-28 | a zero second subscriber digit is refused |
| StringExtentions.ShortMobileNumberRefused | ApiGateway/Extentions/StringExtentions.cs:13-28 | a number one digit short is refused |
| StringExtentions.ReversedAt | ApiGateway/Extentions/StringExtentions.cs:46-51 | reversal keeps the length and puts position i at n-1-i |
| StringExtentions.ReversedTwice | ApiGateway/Extentions/StringExtentions.cs:46-51 | reversal is an involution |
| StringExtentions.ReversedAppend | ApiGateway/Extentions/StringExtentions.cs:46-51 | the reversal of a concatenation is the reversed parts in swapped order |
| StringExtentions.ReverseInPlace | ApiGateway/Extentions/StringExtentions.cs:49 | the in-place array reversal leaves the reversed contents |
| StringExtentions.Reverse | ApiGateway/Extentions/StringExtentions.cs:46-51 | the result has the input's length, with position i holding input position n-1-i |
| StringExtentions.SplitInHalf | ApiGateway/Extentions/StringExtentions.cs:59-87 | null exactly for blank input; otherwise two parts whose concatenation is the input, the first of length n/2 rounded down, or up with firstHalfBigger |
| StringExtentions.SplitInHalfBalanced | ApiGateway/Extentions/StringExtentions.cs:69-80 | the halves differ by at most one, the requested half being the longer, and are equal on even lengths |
| StringExtentions.ToUppercaseFirst | ApiGateway/Extentions/StringExtentions.cs:105-116 | the array-based upper-casing yields the text with its first character upper-cased unless it is blank or already upper-case |
| StringExtentions.UppercaseFirstChangesOnlyFirst | ApiGateway/Extentions/StringExtentions.cs:105-116 | the length is kept, a blank text is unchanged, and only the first character may change, to its upper-case form |
| StringExtentions.UppercaseFirstIdempotent | ApiGateway/Extentions/StringExtentions.cs:105-116 | upper-casing the first character twice is the same as once |
| GatewaySecretParser.SecretOf | ApiGateway/Extentions/Authorization/GatewaySecretParser.cs:33-66 | a secret always has a non-empty user name free of ':', and is either a token request or Basic credentials with a non-empty password free of ':' |
| GatewaySecretParser.ParseSecret | ApiGateway/Extentions/Authorization/GatewaySecretParser.cs:22-70 | an absent header or one not starting with "Basic" gives null; only a Basic header yields a secret or throws, and the only exceptions are ArgumentOutOfRangeException and FormatException |
| GatewaySecretParser.OnlyFirstCommaPart | ApiGateway/Extentions/Authorization/GatewaySecretParser.cs:28-31 | whatever follows the first ',' of the header is ignored |
| GatewaySecretParser.UserAndPassword | ApiGateway/Extentions/Authorization/GatewaySecretParser.cs:38-66 | "user:password:..." gives Basic credentials, or a token request when the password is empty |
| GatewaySecretParser.UserAndPasswordWithoutTrailingColon | ApiGateway/Extentions/Authorization/GatewaySecretParser.cs:38-56 | "user:password" has two parts only, so the password is dropped and a token request results |
| GatewaySecretParser.NoColonNoSecret | ApiGateway/Extentions/Authorization/GatewaySecretParser.cs:38-47 | without ':' there is no user name and no secret |
| GatewaySecretParser.EmptyUserNoSecret | ApiGateway/Extentions/Authorization/GatewaySecretParser.cs:46-47 | an empty user name gives no secret |
| GatewaySecretParser.BasicCredentials | ApiGateway/Extentions/Authorization/GatewaySecretParser.cs:26-31 | for "Basic " followed by credentials with no ',' and no white space at either end, the header is read as exactly those credentials: FormatException when they do not decode, otherwise the secret of the decoded text |
| GatewaySecretParser.WellFormedBasicHeader | ApiGateway/Extentions/Authorization/GatewaySecretParser.cs:22-70 | "Basic " and the Base64 of "user:password:" yields Basic credentials for that user and password, or a token request when the password is empty |
| GatewaySecretParser.BasicWithoutCredentialsThrows | ApiGateway/Extentions/Authorization/GatewaySecretParser.cs:28-30 | "Basic" followed only by white space throws ArgumentOutOfRangeException |
| GatewaySecretParser.UndecodableThrows | ApiGateway/Extentions/Authorization/GatewaySecretParser.cs:30-31 | credentials that are not Base64 of text throw FormatException |
| GatewayPasswordHasher.BlockCopy | ApiGateway/Extentions/Authorization/Services/GatewayPasswordHasher.cs:112-113 | the source lands at the offset and every other byte of the buffer is kept |
| GatewayPasswordHasher.Digest | ApiGateway/Extentions/Authorization/Services/GatewayPasswordHasher.cs:105-116 | the copying loop computes the iterated digest (hash the salted bytes, then the last digest followed by them), of the algorithm's length |
| GatewayPasswordHasher.HexDigit | ApiGateway/Extentions/Authorization/Services/GatewayPasswordHasher.cs:118-125 | each digit is a lower-case hexadecimal character |
| GatewayPasswordHasher.HexLower | ApiGateway/Extentions/Authorization/Services/GatewayPasswordHasher.cs:118-125 | two lower-case hexadecimal characters per byte |
| GatewayPasswordHasher.ToHex | ApiGateway/Extentions/Authorization/Services/GatewayPasswordHasher.cs:118-127 | the StringBuilder loop writes the digest's lower-case hexadecimal form |
| GatewayPasswordHasher.HexValue | ApiGateway/Extentions/Authorization/Services/GatewayPasswordHasher.cs:118-125 | reads back the value of each hexadecimal digit |
| GatewayPasswordHasher.ParseHexLower | ApiGateway/Extentions/Authorization/Services/GatewayPasswordHasher.cs:118-125 | the digest is recovered from its hexadecimal form |
| GatewayPasswordHasher.HexLowerInjective | ApiGateway/Extentions/Authorization/Services/GatewayPasswordHasher.cs:118-127 | two digests compare equal in hexadecimal only if they are equal |
| GatewayPasswordHasher.IsValidSupportedLegacyCredential | ApiGateway/Extentions/Authorization/Services/GatewayPasswordHasher.cs:78-167 | valid exactly when the algorithm is md5 or sha512 and the iterated, encoded digest of the salted password equals the stored hash |
| GatewayPasswordHasher.LegacyCredentialMatches | ApiGateway/Extentions/Authorization/Services/GatewayPasswordHasher.cs:30-76 | a blank stored hash or blank password never matches |
| GatewayPasswordHasher.IsValidLegacyCredential | ApiGateway/Extentions/Authorization/Services/GatewayPasswordHasher.cs:30-76 | the method decides as the salt and hash placement rules say |
| GatewayPasswordHasher.VerifyHashedPassword | ApiGateway/Extentions/Authorization/Services/GatewayPasswordHasher.cs:17-28 | a valid legacy credential succeeds, and anything else is the base hasher's answer |
| GatewayPasswordHasher.Md5Branch | ApiGateway/Extentions/Authorization/Services/GatewayPasswordHasher.cs:38-55 | a stored value with a bar character is split there into salt and hash, checked by one md5 of password + salt, in lower-case hexadecimal |
| GatewayPasswordHasher.ShortSha512Rejected | ApiGateway/Extentions/Authorization/Services/GatewayPasswordHasher.cs:57-61 | without a bar character, a stored value of at most 40 characters is never valid |
| GatewayPasswordHasher.Sha512Branch | ApiGateway/Extentions/Authorization/Services/GatewayPasswordHasher.cs:63-75 | without a bar character, the first 40 characters are the salt and the rest must be the Base64 of 512 sha512 rounds over password + "{salt}" |
| GatewayPasswordHasher.NoIndexWithoutChar | ApiGateway/Extentions/Authorization/Services/GatewayPasswordHasher.cs:38 | IndexOf finds nothing in a string without the character |
| GatewayPasswordHasher.UnknownAlgorithmRejected | ApiGateway/Extentions/Authorization/Services/GatewayPasswordHasher.cs:162-166 | an unknown algorithm never matches |
| ServiceDefinitions.EqualsComparesEndpoint | ServiceRegistry/ServiceDefinition.cs:21-23 | for a non-null argument, Equals holds exactly when name, port and address agree |
| ServiceDefinitions.EqualsIgnoresCheckOperationsProtocol | ServiceRegistry/ServiceDefinition.cs:17-28 | definitions differing only in Check, Operations or Protocol are equal by Equals and by `==` |
| ServiceDefinitions.OpEqualsIsEquivalence | ServiceRegistry/ServiceDefinition.cs:17-28 | on non-null values `==` is reflexive, symmetric and transitive |
| ServiceDefinitions.OpEqualsNull | ServiceRegistry/ServiceDefinition.cs:27 | null == null, and no value == null in either order |
| ServiceDefinitions.OpNotEqualsIsNegation | ServiceRegistry/ServiceDefinition.cs:28 | `!=` is the negation of `==` |
| ServiceDefinitions.EqualsNullDisagreesWithOperator | ServiceRegistry/ServiceDefinition.cs:17-28 | as written, a definition Equals null while `==` says it does not |
| ServiceDefinitions.IntendedEqualsAgreesWithOperator | ServiceRegistry/ServiceDefinition.cs:17-28 | the corrected Equals is false for null and agrees with `==` on every argument |
| MemoryServiceRegistry.IntToString | ServiceRegistry/MemoryServiceRegistry.cs:114 | the port is written with at least one character |
| MemoryServiceRegistry.Host | ServiceRegistry/MemoryServiceRegistry.cs:102-106 | the host is never blank: the configured address when that is not blank, "127.0.0.1" when it is |
| MemoryServiceRegistry.Scheme | ServiceRegistry/MemoryServiceRegistry.cs:108-112 | the protocol is never blank: the configured one when that is not blank, "http" when it is |
| MemoryServiceRegistry.Instance | ServiceRegistry/MemoryServiceRegistry.cs:102-122 | the stored instance keeps name, port and check, and its address is protocol://host:port |
| MemoryServiceRegistry.AddServiceInstance | ServiceRegistry/MemoryServiceRegistry.cs:95-122 | one step of the inner loop registers the service's instance under name + operation, folded to lower case |
| MemoryServiceRegistry.MemoryServiceRegistry.Empty | ServiceRegistry/MemoryServiceRegistry.cs:23-28 | a registry starts with an empty table |
| MemoryServiceRegistry.MemoryServiceRegistry.Create | ServiceRegistry/MemoryServiceRegistry.cs:23-28 | the constructor's registration either builds the table or throws its exception |
| MemoryServiceRegistry.MemoryServiceRegistry.RegisterServices | ServiceRegistry/MemoryServiceRegistry.cs:84-127 | the table is replaced wholesale by the one built from the list, empty for a null list; a service with null Operations throws and leaves the old table |
| MemoryServiceRegistry.MemoryServiceRegistry.GetServiceLocation | ServiceRegistry/MemoryServiceRegistry.cs:36-76 | names ending in "advert" are looked up as "advert"; a missing or empty entry is null, a single instance its address, several go to the health check |
| MemoryServiceRegistry.ThrownPersists | ServiceRegistry/MemoryServiceRegistry.cs:89-124 | once one service throws, the whole registration throws with it |
| MemoryServiceRegistry.RegisterWellFormed | ServiceRegistry/MemoryServiceRegistry.cs:97-122 | adding an instance keeps every bucket non-empty and free of equal instances |
| MemoryServiceRegistry.RegisterOperationsWellFormed | ServiceRegistry/MemoryServiceRegistry.cs:93-123 | registering a service's operations keeps the HashSet invariant |
| MemoryServiceRegistry.RegistryWellFormed | ServiceRegistry/MemoryServiceRegistry.cs:84-127 | every table built has non-empty buckets without equal instances |
| MemoryServiceRegistry.RegisterPresent | ServiceRegistry/MemoryServiceRegistry.cs:116-122 | after adding, an instance equal to the new one is under its key |
| MemoryServiceRegistry.RegisterKeepsPresent | ServiceRegistry/MemoryServiceRegistry.cs:116-122 | adding never loses an instance already registered |
| MemoryServiceRegistry.RegisterOperationsKeepsPresent | ServiceRegistry/MemoryServiceRegistry.cs:93-123 | registering a service's operations never loses an earlier instance |
| MemoryServiceRegistry.RegisterOperationsPresent | ServiceRegistry/MemoryServiceRegistry.cs:93-123 | each of the service's operations has its instance under name + operation |
| MemoryServiceRegistry.RegistryComplete | ServiceRegistry/MemoryServiceRegistry.cs:84-127 | every operation of every configured service has its instance under name + operation |
| MemoryServiceRegistry.RegisterOperationsOrigin | ServiceRegistry/MemoryServiceRegistry.cs:93-123 | registering a service's operations adds only that service's instance, under its own keys |
| MemoryServiceRegistry.RegistrySound | ServiceRegistry/MemoryServiceRegistry.cs:84-127 | the table holds only instances of configured services, each under a key of one of its operations |
| MemoryServiceRegistry.LowerAppend | ServiceRegistry/MemoryServiceRegistry.cs:41 | case folding distributes over concatenation of name and operation |
| MemoryServiceRegistry.AdvertNamesNormalised | ServiceRegistry/MemoryServiceRegistry.cs:38-39 | any name ending in "advert", in any case, is looked up as "advert" |
| MemoryServiceRegistry.LocateIgnoresCase | ServiceRegistry/MemoryServiceRegistry.cs:38-47 | the lookup ignores the letter case of the name and of the operation |
| MemoryServiceRegistry.UnregisteredNotFound | ServiceRegistry/MemoryServiceRegistry.cs:41-75 | a key no configured operation produces is not found |
| MemoryServiceRegistry.BlankAddressesShareInstance | ServiceRegistry/MemoryServiceRegistry.cs:101-113 | services that differ only in a blank address store the same instance, whose address is never empty |
| MemoryServiceRegistry.SingleServiceFound | ServiceRegistry/MemoryServiceRegistry.cs:67-71 | a service registered alone is found at its own address under each of its operations |
| UserClaims.Matching | AuthService/Models/IdentityUser.cs:60 | the matching claims are drawn from the list, all match, and none is missed |
| UserClaims.WithoutClaim | AuthService/Models/IdentityUser.cs:53-66 | exactly the non-matching claims remain, and with the matches they account for the whole list |
| UserClaims.RemoveFirst | AuthService/Models/IdentityUser.cs:64 | List.Remove drops one element when it is present and changes nothing otherwise |
| UserClaims.MatchingCons | AuthService/Models/IdentityUser.cs:60 | the matches of a list are those of its head followed by those of its tail |
| UserClaims.WithoutClaimCons | AuthService/Models/IdentityUser.cs:53-66 | the remaining claims of a list are its head, unless it matches, followed by those of its tail |
| UserClaims.RemoveMatchingStep | AuthService/Models/IdentityUser.cs:62-65 | removing one matching claim leaves the non-matching claims as they were, with one match fewer |
| UserClaims.NoMatchKeepsAll | AuthService/Models/IdentityUser.cs:53-66 | with no match, every claim stays |
| UserClaims.MatchingPresent | AuthService/Models/IdentityUser.cs:62-65 | while some match remains, each matching claim is in the list, so List.Remove finds it |
| UserClaims.MatchingFromClaims | AuthService/Models/IdentityUser.cs:60 | every matching claim comes from the list |
| UserClaims.RemoveAfterAdd | AuthService/Models/IdentityUser.cs:43-66 | removing a claim right after adding it leaves exactly the claims that did not match it |
| IdentityUser.DeleteTransition | AuthService/Models/IdentityUser.cs:68-76 | Delete's outcome and new deletion date |
| IdentityUser.SecondDeleteFails | AuthService/Models/IdentityUser.cs:68-76 | a first Delete of a live user succeeds with that date; a second always throws and keeps the first date |
| IdentityUser.IdentityUser.constructor | AuthService/Models/IdentityUser.cs:10-12 | every property at its default, Claims null |
| IdentityUser.IdentityUser.Create | AuthService/Models/IdentityUser.cs:19-31 | throws exactly for a blank user name; otherwise a new user with that name, the given id and time, and an empty claim list |
| IdentityUser.IdentityUser.CreateWithEmail | AuthService/Models/IdentityUser.cs:14-17 | as the named constructor, and the email is set |
| IdentityUser.IdentityUser.AddClaim | AuthService/Models/IdentityUser.cs:43-51 | a null claim throws, a null list throws, otherwise exactly the claim is appended and nothing else changes |
| IdentityUser.IdentityUser.RemoveClaim | AuthService/Models/IdentityUser.cs:53-66 | a null claim or list throws; otherwise every claim with equal type and value goes and the others stay in order |
| IdentityUser.IdentityUser.Delete | AuthService/Models/IdentityUser.cs:68-76 | an already deleted user throws and keeps its date, otherwise the date is set; nothing else changes |
| User.Validation | AuthService/Model/User.cs:25-29 | a null stored hash throws, otherwise validation compares hashes |
| User.SetPasswordThenValidate | AuthService/Model/User.cs:19-29 | a password just set validates, and another validates exactly when it hashes alike under the stored salt |
| User.User.constructor | AuthService/Model/User.cs:9-17 | every property at its default |
| User.User.SetPassword | AuthService/Model/User.cs:19-23 | the salt is drawn for the new password and the password stored as its hash under that salt; nothing else changes |
| User.User.ValidatePassword | AuthService/Model/User.cs:25-29 | the stored hash is compared with the candidate's hash under the stored salt |
| User.User.AddClaim | AuthService/Model/User.cs:31-39 | a null claim throws, a null list throws, otherwise exactly the claim is appended |
| User.User.RemoveClaim | AuthService/Model/User.cs:41-54 | a null claim or list throws; otherwise every matching claim goes and the others stay in order |

## Left out

- The health-check probe of GetServiceLocation (MemoryServiceRegistry.cs lines 48-66) is HTTP with timeouts. A key with several instances answers `HealthCheck(instances)`, without the probe or its ordering by timeout.
- `Dispose` (MemoryServiceRegistry.cs lines 129-153) and `ServiceDefinition.GetHashCode` (runtime string hashing) are left out. The HashSet is modelled through the equality alone, which GetHashCode is consistent with.
- `ToUrlSlug`, `RemoveDiacritics` and the `Replace*` helpers of StringExtentions.cs are left out. They depend on Unicode normalisation and the regular expression engine.
- `Base64Encode` and `Base64Decode` (StringExtentions.cs lines 35-39, 94-98) wrap .NET's converters. They are the `Base64Codec` parameter, and `ValidCodec` states what the code relies on of them.
- MD5, SHA-512, UTF-8 bytes and Base64 of bytes are the `Crypto` parameter, and the base ASP.NET Identity hasher is a function parameter.
- `GetUserId` and `GetSource` of AuthProvider.cs (lines 145-164) read the HTTP context. Their values are parameters of IsApiInScope.
- Case is folded for ASCII letters only, and non-ASCII letters are not folded. This holds for every case-aware operation the code uses:
  - the culture-sensitive `ToLower`, `StartsWith`, `EndsWith` and `IndexOf(string)`, which are modelled ordinally;
  - `char.IsUpper` and `char.ToUpperInvariant` in ToUppercaseFirst (StringExtentions.cs lines 107 and 113), so "émile" stays "émile" where .NET gives "Émile";
  - `StringComparer.OrdinalIgnoreCase` for the known applications (AuthProvider.cs line 20), the registry's dictionary (MemoryServiceRegistry.cs line 87) and PremodCategories (StateProvider.cs lines 496-498);
  - `string.Compare(source, "ccap", StringComparison.OrdinalIgnoreCase)` (StateProvider.cs line 317).
- Strings are sequences of Unicode scalar values, so lone UTF-16 surrogates cannot be represented.
- StringExtentions.Reverse, StringExtentions.SplitInHalf, IdCryptoProvider.Encrypt and IdCryptoProvider.Decrypt count lengths and reverse over Unicode scalar values, where .NET counts and reverses UTF-16 code units. They agree with the code only on text with no character above U+FFFF (`InBasicPlane`). On other text the code splits surrogate pairs, and its round trip is lossy, so Encrypt promises the round trip only for such ids.
- GatewayPasswordHasher.Sha512Branch: the 40-character salt and the hash after it are cut at 40 Unicode scalar values. The code cuts at 40 UTF-16 code units (`Substring(0, 40)` and `Substring(40)`, GatewayPasswordHasher.cs lines 65-68). The two cuts agree only when the stored value has no character above U+FFFF (`InBasicPlane`) in its first 40 characters.
- GatewayPasswordHasher.ShortSha512Rejected: the `Length <= 40` test (GatewayPasswordHasher.cs line 58) counts Unicode scalar values, where the code counts UTF-16 code units. The two agree only on stored values with no character above U+FFFF. The same holds for GatewayPasswordHasher.LegacyCredentialMatches and GatewayPasswordHasher.IsValidLegacyCredential, which use both tests. The md5 branch cuts at the '|' itself and gives the same salt and hash either way.
- GatewaySecretParser.ParseSecret: `Substring("Basic ".Length)` (GatewaySecretParser.cs line 30) drops six UTF-16 code units, where the model drops six Unicode scalar values. They agree when the trimmed header has no character above U+FFFF among its first six. On "Basic😀" the code passes a lone surrogate to `Convert.FromBase64String` and throws FormatException, while the model decodes the empty text.
- `Math.Sqrt` in Isprime is replaced by the bound d·d ≤ n, and `Math.Ceiling(n / 2.0)` in SplitInHalf by (n + 1) / 2. The two agree on every length.
- IdCryptoProvider.Encrypt: the round trip is proved for ids shorter than 2^26 characters, where every intermediate length fits in an int, and with no character above U+FFFF.
- Where the code treats a null string like "", the model uses a plain string. `currentSubState` differs from "" in the table lookups, so it is an `Option`. So are the claim lists, the password, the salt, the Operations lists, and a null claim or service list argument. Three more places tell null from "" in the code, but the model keeps a plain string there, so it does not cover the null case:
  - UserClaims.UserClaim: a claim made by `new UserClaim()` has a null Type and Value. RemoveClaim's filter (IdentityUser.cs line 60, User.cs line 48) compares them with `==`, which tells null from "". So removing `UserClaim("", "")` keeps such a claim in the code, while the model removes it.
  - ServiceDefinitions.ServiceDefinition: Equals tells a null Address from "" (ServiceDefinition.cs line 23), and the model's equality lemmas cover only addresses that are strings. The registry is not affected. It stores and compares only the instances it builds, whose Address is the concatenation protocol://host:port and is never null. A null or blank configured address becomes 127.0.0.1 there (MemoryServiceRegistry.BlankAddressesShareInstance).
  - AuthProvider.ApiScope: a configured scope with a null Type throws NullReferenceException at `tbl.Type.StartsWith` (AuthProvider.cs line 78), and one with a null Scope throws at `tbl.Scope.Contains` (lines 122 and 125). The model reads both as "" and returns a result.
- A null ServiceDefinition inside the service list, or a null Name, is not modelled.
- MemoryServiceRegistry.MemoryServiceRegistry.GetServiceLocation: a null name, on which `name.ToLower()` throws NullReferenceException (MemoryServiceRegistry.cs line 38), is not modelled. The model's name is a string and is never null.
- StringExtentions.IsValidMobileNumber: a null input, on which `Regex.Match` throws ArgumentNullException (StringExtentions.cs line 25), is not modelled. The model's input is a string and is never null.
- StateProvider.ChangeStateAdvert: a null stored advert, on which CheckChange throws NullReferenceException (StateProvider.cs line 617), and a null changed advert, which throws at line 594, are not modelled. The model's adverts are values and are never null.
- A null claim inside a claim list, on which RemoveClaim's filter would throw, is not modelled.
- `List.Remove` removes by reference equality. A claim value is its type and value, so the model removes the first equal claim.
- The State enum is a datatype, so every result's state is one of the five by construction, and needs no lemma.
- The spam and premoderation checks of rule 13 are not in the code. Only the flags that gate them are modelled.
- The four tables and PremodCategories, which the static constructor fills entry by entry, are constant maps and a constant list. The order in which they are filled is not modelled.
- Of IdentityUser, PhoneNumber, PasswordHash, AccessFailedCount and IsLockoutEnabled are never written by the modelled code and are not fields of the class. BaseEntity (Services.Domain/Auth/Models/BaseEntity.cs) declares only Id, which is the `id` field of the class. CreatedOn and DeletedOn are IdentityUser's own properties.
- JwtBuilder, the controllers, persistence, the authentication handlers and the client stores are not part of this model.

## Findings

| source | as written | input that shows it | evidently intended | confidence | as-written member | corrected member |
|---|---|---|---|---|---|---|
| ServiceRegistry/ServiceDefinition.cs:19 | `Equals(ServiceDefinition other)` returns true for a null argument | any definition `a`: `a.Equals(null)` is true while `a == null` is false | Equals of a value and null is false, as the IEquatable contract and the `==` operator say | not executed | ServiceDefinitions.EqualsNullDisagreesWithOperator | ServiceDefinitions.IntendedEqualsAgreesWithOperator |
| ApiGateway/Auth/StateProvider.cs:284-287 | the three sentinel results are shared static objects, and every call overwrites their Modified with its own isEdit | two banned-account requests, the first an edit and the second not: both get the same object, which after the second call reports the first edit as not modified | each result reports its own call's isEdit | not executed | StateProviderSentinels.SentinelOverwritten | StateProvider.ChangeState |
