# A model of the medhistory sign-up back end and its Nexmo client

This project models the account flows of the `user_signup` Django app in Dafny:

- **Sign-up.** A pending sign-up (`TempUser`) is saved. A `pre_save` hook then draws a one-time code and texts it to the phone number.
- **Resend.** The resend view re-saves the row once 20 seconds have passed.
- **Verification.** The verify view promotes the row to a real user if the code is presented within 50 seconds. It then deletes the pending row and returns a pair of JWTs.
- **Activation.** The e-mail activation link sets `is_active`.

The second view module covers:

- the OTP login, with a 5000-second window;
- the password-reset request, by SMS or e-mail;
- the verification that hands out a reset link;
- the reset itself.

Also modelled:

- the token generator's hash value;
- the URL table;
- the renaming hooks and upload paths of the `cart` catalogue;
- the pure parts of the vendored Nexmo client: settings resolution, the user agent, request signing and signature checking, response classification, and JWT claims.

Inputs from the outside world are plain parameters of the model: the clock (`now`, whole seconds), random draws, password hashing, token checking, base64 encoding of primary keys, the JWT encoder, hex digests, the environment and the site's domain.

Database tables are fields of the class `Models.Database`, which also keeps an outbox of the SMS and mail messages handed to the gateways.

`timedelta.seconds` is modelled as `(now - date) % 86400`, which is what the views compare against their windows. On this measure a code becomes valid again one day later; the first finding below covers it.

The views are modelled as the code is written. Where the project's own description says otherwise, the code is followed:

- An empty e-mail counts as a value for the uniqueness constraint, so a second sign-up with a blank e-mail is refused.
- The reset-link reply has status 200 (DRF's default), not 202.
- Sign-up looks for an existing row under `"+91" + phone_number`, but the serializer stores the number as submitted (only stripped of surrounding whitespace). An identical resubmission therefore meets the unique phone number and is refused (`SignupViews.ResubmissionRejected`).
- The serializer's fields trim surrounding whitespace, as DRF's `CharField` and `EmailField` do by default: whitespace-only text is blank, and the length limits and the stored row see the stripped text (`Text.Strip`).
- `create_user` normalises the e-mail by lower-casing its domain (`Models.NormalizeEmail`); the user row and the activation mail carry the normalised address.
- A code is compared as text with the stored text. A code submitted as a JSON number never matches, so submitted codes are modelled as text.

## Model

| member | source | states |
|---|---|---|
| Text.Find | cart/models.py:53 | `str.find`: the lowest index where the needle occurs, and -1 exactly when it occurs nowhere |
| Text.DecimalString | user_signup/models.py:30 | `str()` of a natural number: at least one character, all digits, a leading `0` exactly for zero, and two or more digits from 10 on |
| Text.Strip | user_signup/models.py:18-23 | the trimming DRF applies to each submitted field: the result is empty exactly when the text is all whitespace, and otherwise neither starts nor ends with whitespace |
| Text.StripSplits | user_signup/models.py:18-23 | the text is the leading whitespace `lstrip` drops, then the stripped result, then the rest |
| Text.StripDropsOnlySpaces | user_signup/models.py:18-23 | everything before and after the stripped result is whitespace |
| Text.StripIdempotent | user_signup/models.py:18-23 | stripping twice equals stripping once |
| Text.Lower | venv/lib/python3.6/site-packages/nexmo/__init__.py:451 | `str.lower` on ASCII text: the same length, each capital `A`-`Z` replaced by its small letter and every other character kept |
| Text.LowerIdempotent | venv/lib/python3.6/site-packages/nexmo/__init__.py:451 | lowercasing twice equals lowercasing once |
| Otp.StoredOtp | user_signup/models.py:27-29 | the text a drawn code is stored as has 5 or 6 digits, no leading zero, and fits both `otp` columns (8 and 10) |
| Otp.StoredOtpRoundTrip | user_signup/models.py:29 | reading the stored text back as a number gives the draw |
| Otp.StoredOtpInjective | user_signup/models.py:29 | two draws give the same stored code exactly when they are equal |
| Otp.SignalNeverStored | user_signup/views.py:38 | the placeholder "1234" set by resend is never a code the hook stores |
| Otp.SmsBodyRoundTrip | user_signup/models.py:30 | the code can be read back out of the SMS body |
| Otp.OtpSmsBody | user_signup/models.py:30 | the SMS text is the fixed prefix, the code and the fixed suffix, with the code right after the prefix |
| Otp.ElapsedSeconds | user_signup/views.py:36-37 | the measure is below one day, differs from the true elapsed time by whole days, and equals it within the first day |
| Otp.ElapsedSecondsPeriodic | user_signup/views.py:49-50 | adding whole days to the present instant leaves the measure unchanged |
| Otp.WindowReopensNextDay | user_signup/views.py:49-50 | a code issued at 0 and presented at 86410 passes the 50-second test but is outside 50 seconds of total time |
| Otp.WindowReopensEveryDay | user_signup/views2.py:26-27 | a code inside its window is inside it again after any number of whole days |
| Otp.IntendedExpiryIsPermanent | user_signup/views.py:49-50 | when measured on total elapsed time, a window that has closed stays closed |
| Otp.WindowsAgreeWithinADay | user_signup/views2.py:62-63 | within the first day both window tests give the same answer |
| Models.HookApplied | user_signup/models.py:27-29 | the hook replaces `otp` with the stored draw and `date` with the present, and changes no other field |
| Models.MatchingPks | user_signup/views2.py:25 | the keys selected by `username == login or email == login` are exactly the matching ones, in ascending order |
| Models.GetByLogin | user_signup/views2.py:25 | `get` returns the only match, reports no match exactly when none exists, and reports several exactly when two exist |
| Models.NormalizeEmail | user_signup/views.py:52 | `create_user` normalises the e-mail: an address without `@` (after stripping) is kept exactly as given, and the result is empty exactly when the address is |
| Models.NormalizeEmailSplits | user_signup/views.py:52 | a stripped address keeps its local part, up to the last `@`, and gets its domain lower-cased |
| Models.NormalizeEmailIdempotent | user_signup/views.py:52 | normalising twice equals normalising once |
| Models.UpsertProfile | user_signup/views2.py:92 | the user's one profile gets the code and the present date, a new profile starts unverified, and other profiles are unchanged |
| Models.UpsertOverwrites | user_signup/views2.py:92 | a second request leaves the state that the second request alone would have left |
| Models.Database.constructor | user_signup/models.py:10-24 | the tables start empty and valid |
| Models.Database.SaveTempUser | user_signup/models.py:27-31 | the SMS is sent first; the row is written only if no other row has its phone number or e-mail; the written row carries the new code and date |
| Models.Database.DeleteTempUser | user_signup/views.py:69 | removes exactly the pending row for that phone number |
| Models.Database.CreateUser | user_signup/views.py:52-54 | appends the user and returns its primary key, or changes nothing when the username is taken |
| Models.Database.SaveUser | user_signup/views.py:84-85 | replaces exactly the one user row |
| Models.Database.UpdateOrCreateProfile | user_signup/views2.py:92 | the profiles become the upsert of the old profiles; no other table changes |
| Models.Database.Send | user_signup/models.py:31 | appends exactly one message to the outbox |
| SignupViews.ExistingKey | user_signup/views.py:23 | the row looked up is the one under `"+91"` plus the submitted number, if it exists |
| SignupViews.SignupErrors | user_signup/models.py:17-24 | each name and the password is an error exactly when it is missing, blank or whitespace only, or too long or holding a NUL once stripped; the phone number likewise, or when another row holds the stripped number; the e-mail exactly when it is given, not blank, and its stripped text is too long, holds a NUL, is malformed or is held by another row |
| SignupViews.FormRecord | user_signup/views.py:24-27 | the row to save holds the stripped names, phone number and password; the stripped e-mail when given, otherwise the existing row's e-mail or blank on a new row; `otp` and `date` as the existing row had them, or blank and 0 on a new row |
| SignupViews.SubmitOutcome | user_signup/views.py:20-32 | the reply is 201, 400 or an IntegrityError; 400 exactly when the form has field errors; any reply but 201 leaves the pending table as it was; on 201 the row under the stripped phone number holds a fresh code and the present date, and every other row is one the table already had |
| SignupViews.Submit | user_signup/views.py:20-32 | the reply and the new pending table are `SubmitOutcome` of the old table; an invalid form gives 400 with its field errors and no change; a valid one is texted, then saved with 201 "otp sent", or gives 500 without saving when another row holds the same blank e-mail |
| SignupViews.Resend | user_signup/views.py:34-42 | an unknown number gives 500; once more than 20 seconds have passed, a new code is saved and texted with 202 "resend"; otherwise 200 "wait" and nothing changes |
| SignupViews.Verify | user_signup/views.py:49-51 | expired exactly when outside the 50-second test; accepted exactly when inside it with the stored code; incorrect exactly when inside it with another code |
| SignupViews.PromotedUser | user_signup/views.py:52-54 | the new user takes the phone number as username, the normalised e-mail (blank exactly when the pending e-mail is), the names, the hashed password, and is active |
| SignupViews.VerifiedMessage | user_signup/views.py:56-68 | the 202 reply starts with the verified notice and the access token, and ends with the mail reminder when the user has an e-mail, or with the request for one when not |
| SignupViews.VerifiedMessageMentionsMail | user_signup/views.py:56-68 | the reply ends with the e-mail reminder exactly when the user gave an e-mail |
| SignupViews.VerifyOtp | user_signup/views.py:46-73 | on acceptance the user is created, mailed if they have an e-mail, and the pending row deleted, with 202; expired or incorrect gives 200 and no change; a missing row, a missing code or a taken username gives 500 |
| SignupViews.ActivateAccount | user_signup/views.py:77-89 | a valid key and token activate exactly that user ("Email_verified"); anything else is "Activation link is invalid!" with no change |
| SignupViews.ExpiredWhateverTheCode | user_signup/views.py:50 | once expired, every submitted code is expired |
| SignupViews.OnlyLatestCodeAccepted | user_signup/views.py:51 | a code from an earlier draw is never accepted after a new save |
| SignupViews.FreshCodeAccepted | user_signup/views.py:49-51 | the code just saved is accepted within 50 seconds |
| SignupViews.NoResendRightAfterSave | user_signup/views.py:36-37 | no resend is due within 20 seconds of a save |
| SignupViews.ResubmissionRejected | user_signup/views.py:23 | resubmitting a number whose stripped form is stored, without the `"+91"` prefix, gives 400 naming `phone_number` and leaves the table as it was |
| SignupViews.SecondBlankEmailFails | user_signup/models.py:20 | a valid submission with a blank e-mail (or none, on a new row) while another row has the blank e-mail gives 500 IntegrityError and leaves the table as it was |
| ProfileViews.CheckProfileOtp | user_signup/views2.py:24-33 | `Passed` exactly when the login selects one user whose profile has the submitted code inside the window; an exception escapes exactly when a key is missing or several users match |
| ProfileViews.OtpLogin | user_signup/views2.py:22-33 | 202 with the token pair exactly when the check passes; refused gives 200 with the failure text; 500 exactly when an exception escapes |
| ProfileViews.OtpLoginIntended | user_signup/views2.py:32-33 | the same success condition with every exception caught |
| ProfileViews.LoginIntendedNeverFails | user_signup/views2.py:32-33 | with every exception caught, the login answers 202 or 200 and never 500 |
| ProfileViews.LoginFailsOnSharedLogin | user_signup/views2.py:25 | a login that is one user's username and another's e-mail gives a 500 |
| ProfileViews.CodeStaysAccepted | user_signup/views2.py:26-27 | a passed check still passes at any later instant inside the window |
| ProfileViews.ResetLinkRoundTrip | user_signup/views2.py:67 | the encoded key and the token can be read back out of the reset link |
| ProfileViews.ResetLink | user_signup/views2.py:67 | the link starts with `http://`, the domain and `/signup/new_password/`, followed by the encoded key, and ends with `/` |
| ProfileViews.PasswordResetOtpVerify | user_signup/views2.py:57-75 | a passing check gives 200 with the link for that user's key and token; refused gives 200 with the failure text; an exception gives 500 |
| ProfileViews.PasswordResetOtpVerifyIntended | user_signup/views2.py:74-75 | with every exception caught, a passing check answers as written and anything else answers 200 with the failure text |
| ProfileViews.ResetVerifyIntendedNeverFails | user_signup/views2.py:74-75 | with every exception caught, the reset verification always answers 200 |
| ProfileViews.ResetVerifyFailsOnSharedLogin | user_signup/views2.py:61 | a login that is one user's username and another's e-mail gives a 500 |
| ProfileViews.ResetPassword | user_signup/views2.py:37-53 | a bad key gives 400 "Activation link is invalid!" and a bad token gives 400 "link is invalid!"; matching passwords set the new hash (201 "Password Reset"); different ones give 201 and no change; a missing field gives 500 |
| ProfileViews.ResetRequestStatus | user_signup/views2.py:85-107 | 200 exactly when the login selects one user and the medium is sms or email; otherwise 500 |
| ProfileViews.ResetRequestStatusIntended | user_signup/views2.py:87-107 | every outcome of the lookup (no match, one, several) answers 200 for a given login and a known medium, as the identical replies at views2.py:95 and 106 suggest; anything else answers 500 |
| ProfileViews.IntendedAgreesForRegisteredLogins | user_signup/views2.py:87-107 | for a login that selects one user, the intended status is the status as written |
| ProfileViews.ResetRequestRevealsAccounts | user_signup/views2.py:87 | a known login gives 200 and an unknown one 500 |
| ProfileViews.IntendedResetRequestHidesAccounts | user_signup/views2.py:87-107 | answering 200 whatever the lookup finds, the status does not depend on the users or the login |
| ProfileViews.PasswordResetView.constructor | user_signup/views2.py:81-83 | the view keeps the code drawn when it was constructed |
| ProfileViews.PasswordResetView.Post | user_signup/views2.py:85-107 | the status is `ResetRequestStatus`; on 200 the user's profile holds the view's code and the SMS or mail went out; on 500 nothing changed |
| ProfileViews.PasswordResetView.PostIntended | user_signup/views2.py:85-107 | every outcome of the lookup (no match, one, several) answers 200: the status is `ResetRequestStatusIntended`, every 200 carries the medium's reply text, and only a login that selects one user gets a profile update and a message |
| ProfileViews.OtpMailBody | user_signup/views2.py:100-101 | the mail body is the SMS text inside a `<p>` element, with the code at the same place after the prefix |
| Token.FingerprintDecodes | user_signup/token.py:7-10 | for a known key and timestamp, the hash value gives back `is_active` and the password hash |
| Token.HashValue | user_signup/token.py:7-10 | the hash value starts with the key and the timestamp, ends with the password hash, and is as long as its four parts together |
| Token.FingerprintIgnoresOtherFields | user_signup/token.py:9 | users that agree on `is_active` and password get the same hash value |
| Token.ActivationChangesFingerprint | user_signup/token.py:9 | activating a user changes the hash value, so activation tokens are single-use |
| Token.PasswordChangesFingerprint | user_signup/token.py:9 | changing the password changes the hash value, so reset tokens are single-use |
| Token.KeyAndTimestampRunTogether | user_signup/token.py:9 | key 1 with timestamp 23 gives the same hash value as key 12 with timestamp 3 |
| Token.TokensForUser | user_signup/token.py:16-21 | the map has exactly the keys "refresh" and "access", holding the two tokens |
| Routes.SegmentBefore | user_signup/urls.py:7-8 | `<str:ph_no>` matches exactly one non-empty segment without a slash before the fixed tail |
| Routes.ReadToken | user_signup/urls.py:9 | an accepted token is its two halves joined by `-`, of 1-13 and 1-20 letters or digits |
| Routes.MatchActivate | user_signup/urls.py:9-10 | an accepted path is the activation route, with a well-formed key, and is rebuilt from its key and token |
| Routes.ReadTokenSound | user_signup/urls.py:9 | whatever the token reader accepts matches the token pattern |
| Routes.ReadTokenComplete | user_signup/urls.py:9 | every pair of 1-13 and 1-20 alphanumeric halves is read back |
| Routes.MatchActivateSound | user_signup/urls.py:9-10 | an accepted activation path has the pattern's shape |
| Routes.MatchActivateComplete | user_signup/urls.py:9-10 | every well-formed activation path is accepted with its key and token |
| Routes.ResolveSound | user_signup/urls.py:5-11 | a resolved path matches the pattern of its route |
| Routes.Resolve | user_signup/urls.py:5-11 | every routed path ends with `/`, so a path without `/` reaches no view |
| Routes.ResolveComplete | user_signup/urls.py:5-11 | a path matching a pattern resolves to that route |
| Routes.PatternsDisjoint | user_signup/urls.py:5-11 | no path matches two different routes |
| Routes.TokenNeedsDash | user_signup/urls.py:9 | a token without a dash is not routed |
| Routes.ResolveSite | medhistory/urls.py:10-11 | a route is reached only under the `signup/` or the `login/` prefix, by resolving the rest of the path in the sign-up table |
| Routes.MountedTwice | medhistory/urls.py:10-11 | the table resolves the same way under both the "signup/" and the "login/" prefix |
| Catalog.UploadPathRoundTrip | cart/models.py:8-17 | the upload path gives back the instance name |
| Catalog.UploadPath | cart/models.py:8-17 | the path is the directory, then the instance name, then `.png` |
| Catalog.UploadDirsDisjoint | cart/models.py:8-17 | images of the three models never share a path |
| Catalog.SuffixedName | cart/models.py:53-54 | the saved name contains the parent's name; it is unchanged if it already did, and otherwise gets `_` and the parent's name appended |
| Catalog.SuffixIdempotent | cart/models.py:53-54 | saving twice renames once |
| Catalog.SuffixLength | cart/models.py:54 | renaming adds at most the parent's name and one character |
| Catalog.SuffixCanExceedSub1Limit | cart/models.py:29 | a 35-character name with any parent grows past `max_length` 35 |
| Catalog.CartObject.constructor | cart/models.py:20-22 | a cart object keeps its name |
| Catalog.CartObject.ImagePath | cart/models.py:8-9 | the image path lies in "cart_object/" and names the object |
| Catalog.Sub1.constructor | cart/models.py:28-31 | a subcategory keeps its name and parent |
| Catalog.Sub1.PhotoPath | cart/models.py:12-13 | the photo path lies in "sub_1/" and names the subcategory |
| Catalog.FinalProduct.constructor | cart/models.py:37-41 | a product keeps its name and parent |
| Catalog.FinalProduct.PhotoPath | cart/models.py:16-17 | the photo path lies in "final_product/" and names the product |
| Catalog.CreateSub1 | cart/models.py:51-54 | the hook leaves the link alone and renames the instance to the suffixed name |
| Catalog.CreateFinalProduct | cart/models.py:57-60 | the hook leaves the link alone and renames the instance to the suffixed name |
| NexmoSignature.StrLessTotal | venv/lib/python3.6/site-packages/nexmo/__init__.py:466 | the key order of `sorted` is total |
| NexmoSignature.StrLessTransitive | venv/lib/python3.6/site-packages/nexmo/__init__.py:466 | the key order of `sorted` is transitive |
| NexmoSignature.SortedKeysUnique | venv/lib/python3.6/site-packages/nexmo/__init__.py:466 | a set of keys has exactly one strictly ascending listing |
| NexmoSignature.SortKeys | venv/lib/python3.6/site-packages/nexmo/__init__.py:466 | the result lists every key exactly once, in ascending order |
| NexmoSignature.SortKeysIsSorted | venv/lib/python3.6/site-packages/nexmo/__init__.py:466 | any ascending listing is the canonical order |
| NexmoSignature.Sanitize | venv/lib/python3.6/site-packages/nexmo/__init__.py:469-470 | every `&` and `=` becomes `_`, and every other character is kept in place |
| NexmoSignature.SanitizeIdempotent | venv/lib/python3.6/site-packages/nexmo/__init__.py:470 | sanitising twice equals sanitising once |
| NexmoSignature.Format | venv/lib/python3.6/site-packages/nexmo/__init__.py:467-472 | no formatted value contains `&` or `=`, and a string free of both is written as it is |
| NexmoSignature.Pair | venv/lib/python3.6/site-packages/nexmo/__init__.py:472 | one piece is `&`, the key, `=` and the formatted value, at those positions |
| NexmoSignature.CanonicalFor | venv/lib/python3.6/site-packages/nexmo/__init__.py:466-472 | the string holds at least two characters per key, so it is empty exactly when there are no keys |
| NexmoSignature.Canonical | venv/lib/python3.6/site-packages/nexmo/__init__.py:466-472 | the signed string is empty exactly when the dictionary is |
| NexmoSignature.CanonicalReadsBack | venv/lib/python3.6/site-packages/nexmo/__init__.py:466-472 | when keys are free of `&` and `=`, the signed string gives back each key with its formatted value |
| NexmoSignature.UncleanKeysCollide | venv/lib/python3.6/site-packages/nexmo/__init__.py:466-472 | for any keys `a` and `b` and a clean value `x`, the one key `a=x&b` signs the same string as the two parameters `a`=`x` and `b` |
| NexmoSignature.WithTimestamp | venv/lib/python3.6/site-packages/nexmo/__init__.py:462-464 | the keys gain `timestamp`; a falsy or missing timestamp becomes the present time; a truthy one leaves the dictionary as it was; all other parameters are unchanged |
| NexmoSignature.WithTimestampSettles | venv/lib/python3.6/site-packages/nexmo/__init__.py:463-464 | once a non-zero timestamp is set, signing again keeps it |
| NexmoSignature.Digested | venv/lib/python3.6/site-packages/nexmo/__init__.py:455-477 | a non-empty method name is an HMAC keyed by the secret, and no method (`None`) is MD5 over the parameters followed by the secret; for both a missing secret raises AttributeError; an empty method name is an MD5 of the parameters alone, with no secret, which never fails |
| NexmoSignature.SecretAfterParameters | venv/lib/python3.6/site-packages/nexmo/__init__.py:474-475 | under MD5 the secret is hashed after the parameters |
| NexmoSignature.SignatureOrderFree | venv/lib/python3.6/site-packages/nexmo/__init__.py:466 | the signed string does not depend on the order in which parameters were added |
| NexmoSignature.Params.constructor | venv/lib/python3.6/site-packages/nexmo/__init__.py:454 | a parameter dictionary keeps its entries |
| Nexmo.ResolveSignatureMethod | venv/lib/python3.6/site-packages/nexmo/__init__.py:86-91 | a hashlib name (md5, sha1, sha256, sha512) that did not come from a truthy argument raises: TypeError when the argument is missing, AttributeError when it is empty; any other resolution passes the resolved value through |
| Nexmo.ResolveSignatureMethodIntended | venv/lib/python3.6/site-packages/nexmo/__init__.py:86-91 | the argument when truthy, otherwise the environment's value |
| Nexmo.EnvironmentMethodFails | venv/lib/python3.6/site-packages/nexmo/__init__.py:90-91 | `NEXMO_SIGNATURE_METHOD=sha256` with no argument raises TypeError, where "sha256" is meant |
| Nexmo.ResolutionsAgree | venv/lib/python3.6/site-packages/nexmo/__init__.py:86-91 | whenever resolution as written succeeds, it gives what the intended one gives |
| Nexmo.UserAgent | venv/lib/python3.6/site-packages/nexmo/__init__.py:105-112 | starts with the library part, and is only that when the app name or version is missing or empty |
| Nexmo.UserAgentReadsBack | venv/lib/python3.6/site-packages/nexmo/__init__.py:109-112 | the app name and version can be read back from the header |
| Nexmo.Init | venv/lib/python3.6/site-packages/nexmo/__init__.py:68-124 | the client fails exactly when method resolution fails; otherwise keys come from the arguments or the environment, a key path is read from file, the application id is kept, and the host and user agent are set |
| Nexmo.SignedRequestChecks | venv/lib/python3.6/site-packages/nexmo/__init__.py:449-477 | a request carrying the signature the client computes is accepted |
| Nexmo.ForgedSignatureRefused | venv/lib/python3.6/site-packages/nexmo/__init__.py:449-452 | a signature that differs from the computed one is never accepted |
| Nexmo.CheckOutcome | venv/lib/python3.6/site-packages/nexmo/__init__.py:449-452 | a non-string `sig` raises AttributeError; a verdict is given only for a string `sig` and a successful digest, and is true exactly when the lower-cased `sig` equals the hex digest of the other entries signed at the present |
| Nexmo.JwtClaims | venv/lib/python3.6/site-packages/nexmo/__init__.py:665-671 | the auth parameters win; missing claims default to the application id, `iat`, `iat + 60` and the jti |
| Nexmo.SetDefault | venv/lib/python3.6/site-packages/nexmo/__init__.py:666-671 | `setdefault` adds the key only when absent, with the default, and keeps every existing entry |
| Nexmo.ExpIgnoresSuppliedIat | venv/lib/python3.6/site-packages/nexmo/__init__.py:668-670 | a supplied `iat` does not move the default `exp` |
| Nexmo.MimeType | venv/lib/python3.6/site-packages/nexmo/__init__.py:588 | the media type is the header up to its first `;` |
| Nexmo.MimeTypeIgnoresParameters | venv/lib/python3.6/site-packages/nexmo/__init__.py:588 | parameters after `;` do not change the media type |
| Nexmo.ClientMessage | venv/lib/python3.6/site-packages/nexmo/__init__.py:597-615 | a standard error body gives "title: detail (type)"; anything else gives "code response from host" |
| Nexmo.Parse | venv/lib/python3.6/site-packages/nexmo/__init__.py:580-623 | 401 raises AuthenticationError, 204 and other codes give nothing, 2xx gives JSON or raw content by media type, and 4xx and 5xx raise with their messages |
| Nexmo.Client.constructor | venv/lib/python3.6/site-packages/nexmo/__init__.py:116 | a client starts with no auth parameters |
| Nexmo.Client.Auth | venv/lib/python3.6/site-packages/nexmo/__init__.py:126-127 | the auth parameters become the given dictionary when it is non-empty, otherwise the keyword arguments |
| Nexmo.HashPieces | venv/lib/python3.6/site-packages/nexmo/__init__.py:466-472 | the text fed to the hasher is the canonical string of the keys in the order given |
| Nexmo.Client.Signature | venv/lib/python3.6/site-packages/nexmo/__init__.py:454-477 | adds the timestamp to the caller's dictionary, then digests the sorted canonical string as its method and secret dictate |
| Nexmo.Client.CheckSignature | venv/lib/python3.6/site-packages/nexmo/__init__.py:449-452 | the outcome of signing a copy without `sig`: AttributeError for a non-string `sig`, the signing error if any, TypeError for non-ASCII text, otherwise acceptance exactly when the lowercased `sig` equals the digest; the caller's dictionary is unchanged |
| Nexmo.Client.GenerateApplicationJwt | venv/lib/python3.6/site-packages/nexmo/__init__.py:664-673 | an RS256 token under the private key over the claims for `when`, or for the present instant when `when` is not given |

## Left out

- Sending SMS and mail, Celery's `delay`, `print` and logging: a message handed to a gateway is one entry appended to `Database.outbox`, and delivery is not modelled.
- The Nexmo client's HTTP endpoints and the network: only the pure parts of the client are modelled.
- The clock and `random.randrange` are inputs. Times are whole seconds, so sub-second differences in `timedelta` are not modelled.
- Password hashing, the token generator's HMAC and timestamp, the base64 encoding of keys, `RefreshToken`, `jwt.encode`, MD5, HMAC and hex digests are not computed. They are parameters of the model or symbolic values (`Digest`, `Jwt`).
- `login(request, user)` in the activation view: the session is not modelled.
- `get_current_site` and the e-mail validator are parameters.
- Serializer error messages: the errors are modelled as the set of failing field names only.
- `__str__` on the catalogue models, their array and default columns, admin, migrations and the other apps: none of them changes behaviour here.
- Concurrent requests: every view runs alone, so the gap between creating a user and deleting the pending row is not modelled.
- Routes: Django's URL decoding and the other project routes are not modelled. The views of the second view module have no routes in this URL table, so the path of the reset link is not routed here.
- Nexmo.Init: failures while opening the private-key file are not modelled; the file contents come from the `readKeyFile` parameter. The key is text: a PEM key passed as `bytes` (accepted by `string_types`, which is `(str, bytes)` under Python 3) makes `"\n" not in self.private_key` raise TypeError, and that case is not modelled.
- Nexmo.Client.CheckSignature: `Lower` maps only `A`-`Z`, so a non-ASCII `sig` that Python's Unicode lowercasing would turn into ASCII (KELVIN SIGN into `k`) gives TypeError in the model where the code compares it.
- Nexmo.Client.GenerateApplicationJwt: `when` is an integer, so the truncation of a float `when` by `int(...)` is not modelled.
- NexmoSignature.Digested: states its result only for the method names that reach it; the ValueError that `hmac.new` raises for an unknown digest name is not modelled.
- Nexmo.Parse: JSON bodies that are not objects are one opaque value (`JOther`), so the classification of arrays, strings and numbers in 4xx bodies is not modelled.
- Values in a signed dictionary are strings, integers, booleans or None. Floats, bytes and other objects are not modelled.
- Routes.ResolveComplete: complete for the patterns as regular expressions that match the whole path. In the Django releases before the fix for CVE-2021-44420 (2.2.25, 3.1.14, 3.2.10), `$` also matches before one final newline, so "signup/\n" reaches the sign-up view there and resolves to nothing here; which behaviour applies depends on the Django version, which the repository does not pin.
- Routes.MatchActivateComplete: the same for the activation pattern: a well-formed activation path followed by one newline, accepted by the Django releases before that fix, is refused here.
- SignupViews.PromotedUser: `normalize_username` (Unicode NFKC normalisation of the username) is not modelled, and the domain is lower-cased on ASCII letters only, where Python's `str.lower()` also maps other letters.
- SignupViews.SignupErrors: the rejection of text holding a NUL character follows the DRF releases that validate it (3.8 and later); the repository does not pin the DRF version. The e-mail syntax check is the `isEmail` parameter.
- SignupViews.SignupForm: submitted values are text or absent. A JSON number or `null` as `phone_number` makes `"+91" + ...` raise TypeError, which the view catches before validating; DRF then reads a number as its `str()` and refuses `null`. Neither case is modelled.

## Findings

The views and the client are modelled as the code is written. Each row also names a corrected definition with its intended property proved beside it.

| source | as written | input that shows it | evidently intended | confidence | as-written member | corrected member |
|---|---|---|---|---|---|---|
| user_signup/views.py:49-50 | every window compares `timedelta.seconds`, which drops whole days (also views.py:36-37 and views2.py:26-27, 62-63) | a code issued at instant 0 and presented at instant 86410 passes the 50-second test | compare the total elapsed time, so an expired code stays expired | not executed | Otp.WindowReopensNextDay | Otp.IntendedExpiryIsPermanent |
| user_signup/views2.py:32 | `except ObjectDoesNotExist or Exception` catches only `ObjectDoesNotExist` | users "a@x.com" (username) and "b" with e-mail "a@x.com", login "a@x.com": `get` raises MultipleObjectsReturned and the view answers 500 | every failure answers 200 with the failure text | not executed | ProfileViews.LoginFailsOnSharedLogin | ProfileViews.LoginIntendedNeverFails |
| venv/lib/python3.6/site-packages/nexmo/__init__.py:90-91 | `getattr(hashlib, signature_method)` uses the argument, not the resolved setting | no `signature_method` argument and `NEXMO_SIGNATURE_METHOD=sha256` in the environment: `getattr` gets None and raises TypeError | resolve from the environment when the argument is not given | not executed | Nexmo.EnvironmentMethodFails | Nexmo.ResolveSignatureMethodIntended |
| user_signup/views2.py:74 | the reset verification repeats `except ObjectDoesNotExist or Exception`, which catches only `ObjectDoesNotExist` | the same two users and login "a@x.com": `get` raises MultipleObjectsReturned and the view answers 500 | every failure answers 200 with the failure text | not executed | ProfileViews.ResetVerifyFailsOnSharedLogin | ProfileViews.ResetVerifyIntendedNeverFails |
| user_signup/views2.py:87 | the user lookup is outside the `try ... except ObjectDoesNotExist` blocks that follow it | an unknown login gives 500 and a known one gives 200, which tells callers which accounts exist | answer 200 whatever the lookup finds | not executed | ProfileViews.ResetRequestRevealsAccounts | ProfileViews.IntendedResetRequestHidesAccounts |
