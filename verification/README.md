# Verification of libpkgexec

libpkgexec seals evidence about package program executions. A request is normalised and the
guarantees it requires are derived from its policies. A backend profile says which guarantees a
backend can give. Five factories build execution results, and admit only results whose evidence is
consistent. Everything sealed carries the SHA-256 identity of a framed byte string. A bounded,
checksummed, canonical codec stores results and profiles, and rebuilds them through the same checks.

This project models that core in Dafny 4.11 and proves it. `dafny verify dfyconfig.toml` checks
everything. The main results, each for all inputs, all runs or all interleavings:

- **What the factories admit.** `Results.Admissible` defines consistent evidence without mentioning
  the factories' guards; the five factories return exactly the admissible results. Every single call is
  decided: it returns the result its arguments describe if that is admissible and the control fits, and
  otherwise throws an error that is determined by what is wrong.
- **The codec is exact.** A result decodes to itself in every field; bytes are accepted under a
  request and a profile exactly when they are the encoding of a result some factory can build over
  them; every other byte string is `corrupt_encoding` or `authority_mismatch`, and which of the two
  is decided exactly. The encoder is defined exactly up to a closed-form size.
- **The canonical re-encoding is needed.** Rebuilding ignores the termination stored with a success
  or a cancellation. The final comparison is the only guard that looks at it, and it suffices.
- **Derivation is exact.** A guarantee is consistent with a request if and only if the request
  derives it, so the additional guarantees a caller passes can be refused but can never change anything.
- **An encoding has one owner.** Where SHA-256 does not collide, decoding an encoded result under any
  request and profile gives the result for its own and `authority_mismatch` for all others.
- **Preimages are unambiguous.** Two hashed byte strings are equal only if the same function made
  them from the same values, across all seven domains; and each is spelled out field by field.
- **The cancellation protocol** loses no wakeup and has exactly one winner, in every interleaving of
  any number of requesters, waiters, timeouts and spurious wakeups. In every run the steps of calls are
  bounded by the other events, and calls that cannot go on have returned or wait for a flag that is not
  set; once it is set timeouts and spurious wakeups add no steps, and every wait returns.
- **Cancellation is authorised.** Over any sequence of sources, signals, dispatches, factory calls
  and decodings, a cancelled result exists only for an enabled request whose token was signalled, and it
  goes back to the step that opened its source and to an earlier signal of that same source.
- **Sorted tables and paths.** Sealing, admission and lookup agree with order-free definitions, and
  the path scanner accepts exactly its grammar.

## How it is laid out

| file | content |
|---|---|
| `Wrappers.dfy`, `Bytes.dfy`, `Ordering.dfy`, `Tables.dfy` | results with error codes; big-endian numbers and hexadecimal; sort, unique and lower_bound as specified by the C++ library; keyed tables |
| `Model.dfy` | vocabulary and sealed values |
| `Preimages.dfy`, `Builders.dfy` | what is hashed, and the identity builder that hashes it |
| `Paths.dfy`, `Layouts.dfy`, `Policies.dfy` | logical paths, resource layouts, environments and credentials |
| `Requests.dfy`, `Profiles.dfy`, `Admission.dfy` | sealed requests, backend profiles, admission of concrete resources |
| `Control.dfy`, `Authority.dfy` | cancellation protocol; who may report a cancellation |
| `Results.dfy`, `Evidence.dfy` | the factories, what they admit, and what follows from it |
| `Wire.dfy`, `Records.dfy`, `ResultCodec.dfy`, `ProfileCodec.dfy` | fields, records and both codecs as functions, with the theorems about them |
| `Streams.dfy`, `ResultStreams.dfy` | the stateful writer and reader, and the result codec as it runs over them |

Conventions. SHA-256 is a parameter `sha`, any function from byte strings to 32 bytes; nothing
assumes that it does not collide, except the lemmas that state `NoCollision` as a premise.
Strings are byte strings. A thrown error is an `Err` with the library's error code. Code that works
step by step (`writer`, `reader`, `identity_builder`, sources, the sealing, admission and decoding
loops) is imperative, and each such method is proved equal to a function; the theorems are about the
functions. In `IdentityBuilder` and `Writer` a thrown exception is a sticky `thrown` field, after
which no operation appends anything.

The premises of the main results are inhabited: every request body can be sealed (`Requests.SealIsUnique`),
every sealed request and profile have a result that is stored and read back
(`ResultCodec.EveryRequestHasAStoredResult`), and every consistent result has a form that can be stored
(`ResultCodec.StrippedCanBeStored`).

Three guards are weaker than a reader may expect, and are modelled as written. A log-capture failure
that lost nothing is refused only when both streams were requested (`Evidence.LogCaptureWithNothingMissing`
gives the exact condition). Cleanup and log-capture failures may carry any termination
(`Evidence.AnyTerminationFits`). `backend_unsupported` may be recorded even when the backend supports
the request (`Evidence.UnsupportedIsAlwaysReportable`).

## Model

| member | source | states |
|---|---|---|
| ResultCodec.RoundTrip | src/result_codec.cpp:345-554 | decoding an encoded result under its own request and profile succeeds and returns it with every field equal, diagnostic and retained material included |
| ResultCodec.ExactImage | src/result_codec.cpp:456-553 | for sealed authorities, bytes decode to `r` if and only if `r` is a consistent result of exactly those authorities and the bytes are its encoding |
| ResultCodec.AcceptedIffMade | src/result_codec.cpp:345-554 | bytes are accepted if and only if some well-formed call of one of the five factories over that request and profile returns a result they encode |
| ResultCodec.EncodingDetermines | src/result_codec.cpp:417-454 | two results share an encoding if and only if their three identities and all evidence, diagnostic and material agree; under one pair of authorities they are then equal |
| ResultCodec.EncodingUnderAnyAuthorities | src/result_codec.cpp:492-500 | for sealed authorities without collisions, decoding an encoded result returns it under its own request and profile and throws `authority_mismatch` under any other |
| ResultCodec.EncoderDefined | src/result_codec.cpp:417-454 | for a factory-built result encoding succeeds if and only if the diagnostic is at most 1 MiB and a closed-form size including the checksum is at most 64 MiB; that size is the length of the output, and the guarantee-count check never fires |
| ResultCodec.EncodedIsStorable | src/result_codec.cpp:24-28 | what the encoder writes is within every limit of the reader; the material limit rejects no encoder output |
| ResultCodec.EncodingInFull | src/result_codec.cpp:417-454 | an encoding is, byte for byte, the magic and version, the three packed identities, every field in its place, and the digest of all of it |
| ResultCodec.PayloadSize | src/result_codec.cpp:40-139 | the payload's length equals the closed form, field by field and for every kind of termination and capture |
| ResultCodec.DecoderOutcomes | src/result_codec.cpp:456-553 | on every byte string the outcome is a result, `corrupt_encoding` or `authority_mismatch`; the last if and only if size, checksum, magic, version and the three identities are right and a supplied authority is not the recorded one |
| ResultCodec.DecodeOfEnvelope | src/result_codec.cpp:463-500 | on bytes that are a header, any body and the checksum of both, decoding compares the two authorities and then depends only on the body |
| ResultCodec.RebuildRestores | src/result_codec.cpp:345-413 | rebuilding the record of a consistent result passes every factory guard again and returns that result |
| ResultCodec.RebuildIsFaithful | src/result_codec.cpp:345-413 | whatever rebuilding returns is consistent, has the given authorities, and repeats every field of the record except a termination that a success or cancellation replaces |
| ResultCodec.RebuildCodes | src/result_codec.cpp:543-553 | no error a rebuild can throw passes the handler as anything but `corrupt_encoding` |
| ResultCodec.CanonicalCheckIsTermination | src/result_codec.cpp:530-541 | once a checked record has been rebuilt with the recorded evidence identity, the re-encoding comparison rejects it if and only if its termination differs from the rebuilt one |
| ResultCodec.ForgedTerminationIsRejected | src/result_codec.cpp:359-406 | a success or cancellation record with another termination and a recomputed checksum rebuilds to the same result with the same evidence identity, and decoding still rejects it |
| ResultCodec.StrippedCanBeStored | src/result_codec.cpp:417-554 | any result without its diagnostic and material is still consistent under the same identity, encodes to less than 1 KiB and is read back |
| ResultCodec.EveryRequestHasAStoredResult | src/result.cpp:351-399 | for every sealed request and profile a `backend_unsupported` result with any diagnostic up to 1 MiB is made, encoded and decoded again |
| ResultStreams.EncodeExecutionResult | src/result_codec.cpp:417-454 | the encoder, run step by step over the writer, returns what the specification says, errors included |
| ResultStreams.DecodeExecutionResult | src/result_codec.cpp:456-554 | the decoder, run over the reader with its handler, returns what the specification says on every byte string |
| ResultStreams.DecodeUncaught | src/result_codec.cpp:461-541 | the try block, run over the reader, returns the decoded result or throws exactly the code its specification says, before the handler maps it |
| ResultStreams.RebuildResult | src/result_codec.cpp:345-413 | the branches of the rebuild, with a real cancellation source, equal its specification |
| ResultStreams.FreshlyCancelled | src/result_codec.cpp:380-405 | a new source of an enabled request makes its transition at the first signal, so the token is always admitted; a disabled request has none |
| ResultStreams.WriteHeader | src/result_codec.cpp:419-424 | the header is magic, version and the request, profile and evidence identities |
| ResultStreams.WriteTermination | src/result_codec.cpp:330-343 | an optional termination is written as presence, kind, optional value and optional limit |
| ResultStreams.WriteCapture | src/result_codec.cpp:101-111 | an optional capture is written as presence, count, digest and nested optional material |
| ResultStreams.WriteRecord | src/result_codec.cpp:425-447 | the fields after the header in their order, refused exactly when the guarantee count or the diagnostic exceeds its limit |
| ResultStreams.ReadHeader | src/result_codec.cpp:484-494 | reads exactly what the header format says, or throws `corrupt_encoding` |
| ResultStreams.ReadTermination | src/result_codec.cpp:297-328 | every combination of kind, value and limit is accepted or refused as the termination constructors do |
| ResultStreams.ReadCapture | src/result_codec.cpp:212-225 | material is retained again and must reproduce the count and the digest read |
| ResultStreams.ReadRecord | src/result_codec.cpp:502-527 | reads exactly what the record format says, or throws `corrupt_encoding` |
| Records.HeaderIso | src/result_codec.cpp:419-424 | a byte string reads as a header with a given rest if and only if it is that header written, then the rest |
| Records.TerminationFieldIso | src/result_codec.cpp:297-343 | decode_termination and encode_termination are inverse in both directions |
| Records.TerminationCodes | src/result_codec.cpp:308-327 | a kind, value and limit are accepted if and only if they are the three fields of the termination returned |
| Records.StreamCaptureIso | src/result_codec.cpp:101-111 | capture writing and reading are inverse in both directions for every valid capture within the limits |
| Records.ConclusionIso | src/result_codec.cpp:512-527 | the same for guarantees, cleanup, failure and diagnostic |
| Records.RecordIso | src/result_codec.cpp:502-528 | a byte string reads as a record with a given rest if and only if it is that record written, then the rest |
| Wire.IdentityIso | src/result_codec.cpp:198-210 | 64 digits packed by the writer and unpacked by the reader are the identity, both ways |
| Wire.U64Iso | src/result_codec.cpp:170-176 | reading eight big-endian bytes inverts writing them, and reads nothing else |
| Wire.TextIso | src/result_codec.cpp:186-196 | reading a length-prefixed text within a limit inverts writing it, and reads nothing else |
| Wire.OptionIso | src/result_codec.cpp:504-509 | an optional field is read back if and only if it was written, for any field that is |
| Wire.GuaranteesIso | src/result_codec.cpp:515-518 | reading a guarantee list inverts writing it; unknown ordinals are never read |
| Wire.CanonicalIsCanon | src/result_codec.cpp:519-522 | `is_sorted` without equal neighbours is the same as strictly increasing |
| Wire.ChecksumHolds | src/result_codec.cpp:468-482 | size, split and checksum comparison accept exactly the byte strings that are some payload followed by its packed checksum |
| Streams.Writer.Byte | src/result_codec.cpp:42-46 | appends one byte and throws exactly when the capacity is exceeded |
| Streams.Writer.U32 | src/result_codec.cpp:54-58 | the descending-shift loop appends the four big-endian bytes |
| Streams.Writer.U64 | src/result_codec.cpp:60-64 | the descending-shift loop appends the same eight bytes as the identity builder |
| Streams.Writer.Raw | src/result_codec.cpp:71-79 | appends the bytes, or throws exactly when they do not fit |
| Streams.Writer.Text | src/result_codec.cpp:81-88 | appends length and bytes, and throws for texts over 32 bits as for any that do not fit |
| Streams.Writer.Identity | src/result_codec.cpp:90-99 | the loop over digit pairs appends the 32 packed bytes |
| Streams.Reader.Byte | src/result_codec.cpp:148-152 | reads one byte below the limit, or throws `corrupt_encoding` |
| Streams.Reader.U16 | src/result_codec.cpp:154-160 | the accumulating loop reads the big-endian value or throws where the bytes run out |
| Streams.Reader.U32 | src/result_codec.cpp:162-168 | the same for four bytes |
| Streams.Reader.U64 | src/result_codec.cpp:170-176 | the same for eight bytes |
| Streams.Reader.Text | src/result_codec.cpp:186-196 | reads a text within its maximum and within the payload, or throws |
| Streams.Reader.Identity | src/result_codec.cpp:198-210 | the digit loop reads the unpacked identity, staying below the limit |
| Streams.ReadGuarantees | src/result_codec.cpp:515-518 | the loop reads the list or throws at the first unknown ordinal |
| Streams.ReadMagic | src/result_codec.cpp:486-488 | comparing byte by byte accepts exactly the magic |
| Bytes.ShiftedByte | src/result_codec.cpp:60-64 | the byte a descending shift selects is the one the low-order-first recursion puts at that place |
| Bytes.EncodeU64 | src/identity_support.cpp:33-39 | filling from the end while shifting gives the big-endian bytes |
| Bytes.EncodeU32 | src/identity_support.cpp:131-139 | the same for 32 bits |
| Bytes.FromBEOfBE | src/result_codec.cpp:170-176 | accumulating the big-endian bytes of a value that fits gives the value |
| Bytes.BEOfFromBE | src/result_codec.cpp:170-176 | the accumulated value fits, and its bytes are those read |
| Bytes.BigEndianEight | src/identity_support.cpp:33-39 | the first of the eight bytes has the highest weight |
| Bytes.HexAlphabet | src/identity_support.cpp:23-28 | the sixteen digits are 0 to 9 and a to f, and are read back |
| Bytes.PackUnpack | src/result_codec.cpp:90-99 | packing the digits of 32 bytes gives the bytes |
| Bytes.UnpackPack | src/result_codec.cpp:198-210 | unpacking a packed identity gives its 64 lowercase digits |
| Bytes.HexEncodeBytes | src/identity_support.cpp:21-31 | the loop writes two lowercase digits for each byte |
| Bytes.RequireSha256Hex | src/identity_support.cpp:47-59 | passes exactly the strings of 64 lowercase hexadecimal digits |
| ProfileCodec.EncoderIsTotal | src/profile_codec.cpp:166-189 | every sealed profile encodes, to exactly 108 bytes and one for each guarantee, at most 126 |
| ProfileCodec.EncodingInFull | src/profile_codec.cpp:166-189 | an encoding is, byte for byte, the magic and version, the two packed identities, the count, one byte for each guarantee, and the digest of all of it |
| ProfileCodec.RoundTrip | src/profile_codec.cpp:166-258 | decoding an encoded profile returns it |
| ProfileCodec.ExactImage | src/profile_codec.cpp:191-258 | bytes decode to `p` if and only if `p` is a sealed profile and they are its encoding; every rejection is `corrupt_encoding` |
| ProfileCodec.EncodingIsCanonical | src/profile_codec.cpp:166-189 | profiles sealed from the same set of guarantees, in any order and with any repetitions, encode to the same bytes and decode to the same profile |
| ProfileCodec.OnlySortedListsAreAccepted | src/profile_codec.cpp:226-243 | a checked record is accepted if and only if its list is strictly increasing, has the limit shape and the identity is that of its content |
| ProfileCodec.EncodeProfile | src/profile_codec.cpp:166-189 | the encoder over its bounded writer returns what the specification says |
| ProfileCodec.DecodeUncaught | src/profile_codec.cpp:194-243 | the try block over its reader returns the profile or throws exactly the code its specification says, before the handler maps it |
| ProfileCodec.DecodeProfile | src/profile_codec.cpp:191-258 | the decoder over its reader with its handler returns what the specification says on every byte string |
| Results.EveryCallDecided | src/result.cpp:351-676 | every well-formed call of every factory returns exactly the result its arguments describe, with the claims as a sorted list, if that result is consistent and the control fits, and otherwise throws |
| Results.ClaimsAreASet | src/result.cpp:29-43 | a factory looks only at the set of claims: order and repetitions change neither its result nor its error |
| Evidence.EveryRefusalExplained | src/result.cpp:351-664 | the error of every refused factory call is the one determined by what is wrong with its control, claims, backend or evidence |
| Results.FactoriesAdmitExactly | src/result.cpp:351-676 | the results that some well-formed factory call returns are exactly those that satisfy the independent definition of consistent evidence |
| Results.MadeIsAdmissible | src/result.cpp:351-676 | every factory result is consistent and has the request and profile it was built over |
| Results.AdmissibleIsMade | src/result.cpp:351-676 | every consistent result is returned by the factory its kind calls for, from its own fields |
| Results.StartedImplIsAdmissible | src/result.cpp:524-676 | the guards of failed_after_start_impl and its switch leave only consistent started failures |
| Results.AdmissibleFailureEvidence | src/result.cpp:572-656 | every consistent started failure passes the switch and the claim comparisons |
| Results.EstablishedExactly | src/result.cpp:568-589 | the claim guards together fix the established set: everything required except lost streams and failed cleanup |
| Results.RequiredOf | src/request.cpp:110-157 | which capture, cleanup, cancellation and limit guarantees a sealed request requires, each if and only if its policy asks for it |
| Results.BeforeStartRequirements | src/result.cpp:237-247 | the loop collects the required guarantees that hold before start, in order |
| Evidence.StartedExactness | src/result.cpp:557-664 | a started success, nonzero exit, signal, limit or cancellation establishes the required list itself; a cleanup failure all but `cleanup_verified`; a log-capture failure all but the missing requested streams, some when both were requested |
| Evidence.EvidenceAgreesWithClaims | src/result.cpp:113-136 | in every result each capture is present if and only if its guarantee is established, cleanup is verified if and only if it is, established is a sorted subset of request and profile, and the aggregate limit is present if and only if an exact one is |
| Evidence.LimitFailuresAreBacked | src/result.cpp:605-622 | a limit failure names a limit the request sets, and the guarantee of that very kind and the aggregate are established |
| Evidence.UnsupportedNeverStarts | src/result.cpp:384-388 | if the profile does not support the request, the only result any factory returns is not-started `backend_unsupported` |
| Evidence.UnsupportedIsAlwaysReportable | src/result.cpp:384-388 | `backend_unsupported` with no claims is returned for every request and profile, supported or not |
| Evidence.SuccessSubsetGuardIsRedundant | src/result.cpp:459-465 | after the earlier guards of `succeeded` its subset guard cannot throw |
| Evidence.LimitGuardNeverThrows | src/result.cpp:605-622 | after the pre-start guard a limit failure is refused if and only if its limit was not requested; the guarantee guard never throws |
| Evidence.AnyTerminationFits | src/result.cpp:633-648 | a cleanup or log-capture failure stays consistent with any termination |
| Evidence.LogCaptureWithNothingMissing | src/result.cpp:633-642 | a log-capture failure with every requested stream present is accepted if and only if not both were requested |
| Evidence.SupportedRequestsCanSucceed | src/result.cpp:445-484 | claiming what is required, in any order, `succeeded` accepts if and only if the profile supports the request and the streams are as requested |
| Evidence.RequiredHasLimitShape | src/request.cpp:131-148 | what a request requires always has the shape `require_limit_guarantee_shape` asks of claims |
| Evidence.CancelledIsAuthorised | src/result.cpp:277-285 | a factory result is cancelled if and only if the call passed a token; the token was the request's own and signalled, and cancellation is enabled, supported and established |
| Evidence.ResultIdentityBytes | src/result.cpp:161-207 | a result's identity is the hash of its fields spelled out in their order, a capture contributing only its count and digest |
| Evidence.SameBytesSameEvidence | src/result.cpp:161-207 | two results feed SHA-256 the same bytes if and only if they agree on every hashed field |
| Evidence.EqualResults | src/result.cpp:701-702 | without a collision, `operator==` is agreement on the hashed fields |
| Evidence.IdentityCommits | src/result.cpp:161-207 | without collisions, results have one identity if and only if their evidence, whole request and whole profile are equal |
| Evidence.DiagnosticAndMaterialAreFree | src/result.cpp:151-159 | changing the diagnostic, or retaining or dropping material of the same count and digest, keeps a result consistent under the same identity |
| Requests.ConsistentIffDerived | src/request.cpp:23-157 | a guarantee is pushed if and only if the caller added it or it is consistent with the policies |
| Requests.DerivedExactly | src/request.cpp:97-167 | with nothing added, derivation never throws and gives the canonical list of exactly the consistent guarantees |
| Requests.DerivedInFull | src/request.cpp:97-167 | a derived list ascends by enumerator value, and each of the eighteen guarantees is in it if and only if the policy it stands for asks for it |
| Requests.AdditionalIsInert | src/request.cpp:97-167 | any additional list is refused if and only if it holds an inconsistent guarantee, and otherwise changes nothing |
| Requests.DeriveRequiredGuarantees | src/request.cpp:97-167 | pushing, sorting, removing repetitions and checking, as written, equals the specification |
| Requests.SealIsUnique | src/request.cpp:232-255 | all ways of sealing one body give the same request and identity or throw |
| Requests.RequestIsSealed | src/request.cpp:210-255 | `seal` returns exactly the requests that require what is consistent with them, in increasing order, and carry their own identity |
| Requests.SealExecutionRequest | src/request.cpp:232-255 | sealing as it runs, through derivation and the identity builder, equals the specification |
| Requests.RequestIdentityBytes | src/request.cpp:169-206 | a request's identity is the hash of schema version, program, purpose, interpreter, root view, part identities, cancellation and required guarantees, spelled out in this order |
| Requests.SameIdentitySameRequest | src/request.cpp:281-283 | without collisions, sealed requests with one identity are equal in every field |
| Profiles.ProfileIsCanonical | src/result.cpp:297-309 | sealing depends only on the set of guarantees, succeeds if and only if it has the limit shape, and is idempotent |
| Profiles.ProfileIsSealed | src/result.cpp:289-309 | `seal` returns exactly the profiles with strictly increasing guarantees of the limit shape and their own identity, and each seals to itself |
| Profiles.SealedInFull | src/result.cpp:297-309 | a sealed profile holds the given guarantees ascending by enumerator value, and its identity is the hash of backend and guarantees spelled out |
| Profiles.SupportsExactly | src/result.cpp:314-315 | a profile supports a sealed request if and only if it holds every required guarantee, that is every guarantee consistent with the request's policies |
| Profiles.SealCapabilityProfile | src/result.cpp:297-309 | sealing as it runs, through the identity builder, equals the specification |
| Model.GuaranteeOrdinals | include/libpkgexec/model.h:48-67 | the value of each guarantee is its place in the declaration, both ways |
| Model.FailureOrdinals | include/libpkgexec/model.h:79-92 | the value of each failure kind is its place in the declaration, both ways |
| Model.CanonAscends | src/result.cpp:40-41 | canonical guarantee lists are those that ascend strictly by enumerator value |
| Model.NormalizeFixes | src/result.cpp:29-43 | normalising fixes exactly the strictly increasing lists |
| Model.CanonIsShort | src/profile_codec.cpp:174-182 | a strictly increasing list over the 18 enumerators has at most 18 entries |
| Preimages.RenderIsInjective | src/identity_support.cpp:112-178 | hashed byte strings are equal if and only if they come from the same `identify_*` function and the same values: lists, optionals and strings delimit themselves and domains never collide |
| Preimages.LayoutBytes | src/model.cpp:93-109 | the hashed bytes of a layout spelled out: domain, bindings, working slot |
| Preimages.BindingBytes | src/model.cpp:99-105 | the bytes of one binding spelled out: role, name, resource, access, mount point |
| Preimages.EnvironmentBytes | src/model.cpp:111-147 | the hashed bytes of an environment spelled out, its three fixed policies first |
| Preimages.CredentialBytes | src/model.cpp:149-164 | the hashed bytes of credentials spelled out |
| Preimages.LimitsBytes | src/model.cpp:166-180 | the hashed bytes of limits spelled out |
| Preimages.RequestBytes | src/request.cpp:169-206 | the hashed bytes of a request spelled out |
| Preimages.ProfileBytes | src/result.cpp:138-149 | the hashed bytes of a profile spelled out |
| Preimages.EvidenceBytes | src/result.cpp:161-207 | the hashed bytes of a result spelled out |
| Preimages.IdentityDetermines | src/identity_support.cpp:180-197 | without a collision an identity stands for the values it was computed from |
| Preimages.DomainsDiffer | src/identity_support.cpp:75-91 | equal domain strings come from the same kind of value |
| Preimages.LayoutDetermined | src/model.cpp:93-109 | the layout bytes determine every binding, in order, and the working slot |
| Preimages.EnvironmentDetermined | src/model.cpp:111-147 | the environment bytes determine every policy, path, number and variable |
| Preimages.CredentialDetermined | src/model.cpp:149-164 | the credential bytes determine user, group, groups and flag |
| Preimages.LimitsDetermined | src/model.cpp:166-180 | the limit bytes determine all five optional limits |
| Preimages.RequestDetermined | src/request.cpp:169-206 | the request bytes determine program, purpose, parts, cancellation and required guarantees |
| Preimages.ProfileDetermined | src/result.cpp:138-149 | the profile bytes determine backend and guarantees |
| Preimages.EvidenceDetermined | src/result.cpp:161-207 | the evidence bytes determine every field they are made from |
| Builders.IdentityBuilder.AddBytes | src/identity_support.cpp:101-110 | an update appends, and throws once the digest was taken |
| Builders.IdentityBuilder.AddI64 | src/identity_support.cpp:148-151 | a signed value is hashed as its 64-bit two's complement |
| Builders.IdentityBuilder.AddString | src/identity_support.cpp:153-160 | a string is hashed as its 64-bit length and its bytes |
| Builders.IdentityBuilder.Finish | src/identity_support.cpp:180-197 | the digest of everything appended is returned once, and a second time throws |
| Builders.IdentifyLayout | src/model.cpp:93-109 | the builder calls produce the identity of the rendered layout |
| Builders.IdentifyEnvironment | src/model.cpp:111-147 | the same for environments |
| Builders.IdentifyCredentials | src/model.cpp:149-164 | the same for credentials |
| Builders.IdentifyLimits | src/model.cpp:166-180 | the same for limits |
| Builders.IdentifyRequest | src/request.cpp:169-206 | the same for requests |
| Builders.IdentifyProfile | src/result.cpp:138-149 | the same for profiles |
| Builders.IdentifyResult | src/result.cpp:161-207 | the same for results |
| Control.EveryInterleavingIsSafe | src/control.cpp:51-108 | in every reachable state a waiter blocked with the flag set is owed a notification, a wait that reported the flag did so rightly, a plain wait returned only with the flag set, and at most one request returned true |
| Control.ReturnTellsTheFlag | src/control.cpp:51-68 | a wait that returns answers with the flag as it is at that step, after an expired timer too |
| Control.WaitsReturnTheFlag | src/control.cpp:51-68 | in any run a wait reports the flag as it was when it returned, and reports false only if its timer fired in that run |
| Control.CallsKeepTheirKind | src/control.cpp:51-68 | in any run a call stays the operation it began as; no timer fires for a plain wait, and it returns only with the flag set |
| Control.RequestTellsTheTransition | src/control.cpp:97-108 | the request that sets the flag goes on to return true, and a request returns false only having found the flag set |
| Control.RunKeepsInv | src/control.cpp:51-108 | every interleaving keeps mutual exclusion, the single winner, honest returns and no lost wakeup; the flag never resets |
| Control.ExactlyOneReturnsTrue | src/control.cpp:97-108 | once some request has returned and none is between its store and its notification, exactly one returned true |
| Control.StuckOnlyWhileUnrequested | src/control.cpp:51-68 | when nothing can go on, the only unfinished calls are waiters blocked while the flag is not set |
| Control.LateCallsSeeTheFlag | src/control.cpp:51-108 | in every interleaving, a request that begins with the flag set never returns true and a wait that begins then never blocks and returns only true, as the single-threaded source answers |
| Control.WorkBoundsRun | src/control.cpp:51-108 | from any state that satisfies the invariant and for any schedule, the steps of calls are at most the work at the start and five for each other event; with the flag set, at most the work and four for each call that begins |
| Control.EveryRunProgresses | src/control.cpp:51-108 | in every run, flagged or not, calls take at most five steps for each request, wait, timeout or spurious wakeup; when no call can step, all have returned except waiters blocked while the flag is not set |
| Control.EveryWaitReturns | src/control.cpp:51-68 | once the flag is set, in any schedule, new calls, timeouts and spurious wakeups included, the steps of calls are bounded by the work and the calls that begin, and when no call can step every call has returned |
| Control.AllCanReturn | src/control.cpp:51-108 | from any reachable state with the flag set the calls can all return by their own steps alone, within the work |
| Control.CancellationSource.ForRequest | src/control.cpp:76-85 | a source exists exactly for enabled requests, bound to them and not signalled |
| Control.CancellationSource.RequestCancellation | src/control.cpp:97-108 | the flag is set, and true is returned exactly on the transition |
| Authority.CancellationIsAlwaysAuthorised | src/backend.cpp:109-127 | over any sequence of steps every result is consistent, every cancelled one belongs to an enabled request with a signalled token of it, a supporting profile and established cancellation, and no signal is taken back |
| Authority.FromTheStart | src/backend.cpp:109-127 | this holds for every run from the empty world |
| Authority.LoadKeepsInv | src/result_codec.cpp:380-405 | decoding adds only authorised results, through the source it opens |
| Authority.UncontrolledNeverCancels | src/backend.cpp:109-118 | uncontrolled dispatch does nothing for an enabled request; for any other the outcome is the backend's own answer, and whatever factory call the backend makes and whatever results it held before, no result about the dispatched request is a cancellation |
| Authority.ControlledTracesBack | src/backend.cpp:120-127 | over any run, controlled dispatch changes something only for an enabled request and a token whose own source, by its number, an earlier step really opened for that request; then the outcome is that of the backend's own call |
| Authority.CancellationTracesBack | src/control.cpp:76-108 | over any run, a cancelled result goes back to one source: a step that really opened it, as the source of that number, for the result's request, and a signal of that number, by a caller afterwards or by the decoding that opened it |
| Authority.SignalComesFirst | src/result.cpp:401-522 | when a factory call returns a new cancelled result, its source had been opened and signalled at earlier steps; when a decoding does, it opened and signalled the source itself |
| Layouts.SealingIsExact | src/model.cpp:513-545 | sealing succeeds if and only if there are bindings, slots and mount points are pairwise distinct and the working slot occurs; the first that fails decides the error |
| Layouts.SealedOrder | src/model.cpp:457-503 | sealed bindings ascend by role in declaration order, then by name byte by byte |
| Layouts.LayoutIdentityBytes | src/model.cpp:542-542 | a sealed layout's identity is the hash of its sorted bindings and working slot, spelled out |
| Layouts.OrderDoesNotMatter | src/model.cpp:513-545 | any permutation of the bindings gives the same layout, preimage and identity, or the same error |
| Layouts.SealingIsIdempotent | src/model.cpp:513-545 | sealing the sealed bindings again changes nothing |
| Layouts.ScanMountPoints | src/model.cpp:528-541 | the set-filling loop refuses exactly repeated mount points, then a working slot that does not occur |
| Layouts.SealResourceLayout | src/model.cpp:513-545 | sort, neighbour loop, mount-point set and identity builder as they run equal the specification |
| Layouts.Binding | src/model.cpp:552-564 | the binary search returns what a linear search returns, for every slot |
| Layouts.EveryBindingIsFound | src/model.cpp:552-564 | every binding given is found under its slot after sealing, and nothing under any other |
| Layouts.BindingTotal | src/model.cpp:499-503 | the comparison of bindings is a strict total order |
| Policies.HermeticIsExact | src/model.cpp:618-676 | an environment is sealed if and only if its scalars are in range and neither a path entry nor a variable name repeats; variables come out sorted and everything else is carried over unchanged |
| Policies.HermeticInFull | src/model.cpp:636-670 | the ranges of a sealed environment's scalars, its variables ascending by name byte by byte, and its identity as the hash of its fields spelled out |
| Policies.VariableOrderDoesNotMatter | src/model.cpp:659-670 | the order of the variables is forgotten |
| Policies.SealHermetic | src/model.cpp:618-676 | the loops as they run equal the specification |
| Policies.FixedIsExact | src/model.cpp:714-736 | credentials are sealed if and only if no supplementary group repeats and none is the primary group |
| Policies.FixedInFull | src/model.cpp:714-736 | sealed groups ascend, and the identity is the hash of user, group, groups and flag spelled out |
| Policies.LimitsInOrder | src/model.cpp:764-781 | limits are made if and only if each one given is positive, are carried over, and are hashed in their order |
| Policies.GroupOrderDoesNotMatter | src/model.cpp:714-736 | the order of the groups is forgotten |
| Policies.SealFixed | src/model.cpp:714-736 | the code as it runs, with its binary search, equals the specification |
| Policies.SealingPoliciesIsIdempotent | src/model.cpp:618-736 | sealing a sealed environment or sealed credentials again returns the same value |
| Policies.SealedPartsCarryTheirIdentity | src/request.cpp:192-195 | parts made by their own constructors carry the identities of their content, as the request's preimage relies on |
| Paths.ParsePath | src/model.cpp:372-401 | the scanner terminates, accepts exactly the grammar and returns the string unchanged |
| Paths.GrammarBySplitting | src/model.cpp:385-399 | a string is in the grammar if and only if it is the root or every component after its leading slash is proper |
| Paths.JoinSplit | src/model.cpp:385-399 | joining the components of a string gives the string |
| Paths.SplitJoin | src/model.cpp:385-399 | splitting joined slash-free components gives the components |
| Paths.ComponentsAreUnique | src/model.cpp:385-399 | the components of an accepted path are determined by it |
| Paths.ScanStep | src/model.cpp:386-399 | one turn of the loop decides one component and leaves the rest |
| Admission.AdmissionIsExact | src/backend.cpp:41-87 | admission succeeds if and only if the root view is the request's, its path is absolute, no identity is supplied twice and the supplied ones are, as a set, those bound; the first that fails decides the error; what is admitted is what was given |
| Admission.AdmittedOrder | src/backend.cpp:56-60 | admitted materializations ascend by identity, digit by digit |
| Admission.AdmitResources | src/backend.cpp:41-87 | the loops as they run equal the specification |
| Admission.EveryBindingIsMaterialized | src/backend.cpp:94-107 | after admission every bound identity finds the caller's own materialization, and every other finds nothing |
| Admission.FindMaterialization | src/backend.cpp:94-107 | the binary search returns what a linear search returns, for every identity |
| Tables.SortFindsRepeats | src/backend.cpp:56-66 | sorting and comparing neighbours finds exactly the keys repeated in the list as given, also when the order looks at the key only |
| Ordering.FindSorted | src/model.cpp:554-563 | binary search and the test after it give the only index with the key, or none |
| Ordering.LexMeans | src/model.cpp:457-458 | a string is less than another if and only if at the first difference it has ended or has the smaller byte |
| Ordering.SortIsCanonical | src/model.cpp:521-521 | the sorted list depends only on the elements and their number |
| Ordering.CanonicalFixes | src/result.cpp:40-41 | sort and unique together keep exactly the strictly increasing lists |

## Left out

- SHA-256 and the OpenSSL calls: foreign code; any function to 32 bytes stands for it, and `identity_failed` from the digest library does not occur.
- `pkgsource::program`, its language and lifecycle names: foreign; a program is its language text and content digest, an action is its text.
- `std::filesystem`: admission takes "is absolute" and "lexically normal" as functions; the resource_materialization constructor, one test of the same kind, is not modelled.
- `std::sort`, `std::unique`, `std::includes`, `std::binary_search`, `std::set`: by their contracts; only `lower_bound` is written out.
- C++ memory orders and clocks: atomics are sequentially consistent steps, a timeout is a step the environment may take whenever the call is timed.
- Destruction of sources and tokens: the state they share is never freed in the model. The source a decoding opens is recorded only when the decoding succeeds; otherwise its token never leaves the decoder.
- Vocabulary validity switches (`vocabulary.h`): enumerations hold only their enumerators, so these tests cannot fail.
- Slot-name, environment-name and access-role checks: each is one branch on one value.
- `to_string` tables, accessors, message texts, ABI and build files, concrete backends.
- Shifts are written as divisions by 256, and `writer::u16` and `add_u16` as two such steps.
- The factories, `rebuild_result` branches and enum decoders are decisions over values and are functions; moves of their arguments are not modelled.
- Streams.Writer.Identity: does not repeat `require_sha256_hex`, because its argument has the type of checked identities.
