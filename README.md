# generic-crud core, modelled in Dafny

`generic-crud` is a Go library of generic CRUD helpers over the GORM ORM and
the Gin web framework. This project models the part of it that makes
decisions, and proves its properties:

- the process-wide pagination setting and the offset/limit policy derived
  from it (`pagination.dfy`);
- what the generic repository returns once its ORM calls have run: the
  property lookup with its id check, patching, updating, and the hard, soft
  and permanent deletes (`query_outcomes.dfy`);
- the emptiness test `IsNullOrEmpty`, together with Go's `strings.TrimSpace`,
  `strings.Fields` and `unicode.IsSpace`, on which it rests
  (`validation.dfy`);
- the total string-to-`int64` parser and the formatter
  (`string_int_conv.dfy`);
- the response envelope `{status, message, data: {result}}`
  (`responses.dfy`);
- the merge of dynamic properties (`mapper.dfy`).

Shared definitions (`Option`, the `int64` range with two's-complement
wrap-around, and errors as messages) are in `basics.dfy`.

Each ORM call is represented by what the repository inspects afterwards:
its error and its count of affected rows. The repository code is then
a pure function of those observations, and its results can be compared
call by call. The pagination setting is a package-level pointer that Go
overwrites and later reads. It is modelled as a class, `PaginationState`,
with one field, and `SetPagination` and `PaginationParams` are methods on
it. The merge of dynamic properties is a loop in Go, so it stays a loop
here, and it is proved against the reference function `Overlay`.

The Go `int` of the pagination code is taken to be 64 bits wide (as on
every 64-bit platform). The offset computation wraps around as Go's
does. `Wrap64` writes this out, and `HugePageWrapsOffset` shows one case.

`DeleteSoftById` and `DeletePermanentById` differ only in which records
the fetch and the delete reach. Both therefore call `DeleteFetched`, which
holds their common outcome rules.

## Model

| member | source | states |
|---|---|---|
| Pagination.NormalPage | genericcrud_repositories/generic_repository_gorm.go:32-35 | page 0 becomes 1; every other page number is kept; the result is never 0 |
| Pagination.NormalPageSize | genericcrud_repositories/generic_repository_gorm.go:37-44 | the page size always lies in 1..100, and sizes already in 1..100 are kept |
| Pagination.Params | genericcrud_repositories/generic_repository_gorm.go:31-49 | the limit of every setting lies in 1..100 |
| Pagination.PaginationState.constructor | genericcrud_repositories/generic_repository_gorm.go:21 | nothing is stored before the first `SetPagination` |
| Pagination.PaginationState.SetPagination | genericcrud_repositories/generic_repository_gorm.go:23-29 | the stored setting becomes exactly the given limit, page and sort |
| Pagination.PaginationState.PaginationParams | genericcrud_repositories/generic_repository_gorm.go:31-49 | the step-by-step method returns the offset/limit pair of `Params` for the stored setting, with a limit in 1..100 |
| Pagination.PageSizePolicy | genericcrud_repositories/generic_repository_gorm.go:39-44 | sizes above 100 give 100, sizes of 0 or less give 10, and sizes in 1..100 pass through |
| Pagination.PageZeroIsPageOne | genericcrud_repositories/generic_repository_gorm.go:33-35 | page 0 and page 1 give the same offset and limit |
| Pagination.SortIsIgnored | genericcrud_repositories/generic_repository_gorm.go:15-19 | the sort field never affects offset or limit |
| Pagination.PositivePageOffset | genericcrud_repositories/generic_repository_gorm.go:46-48 | for a positive page whose product (page-1)·limit fits in int64, the offset is that product, is non-negative, and is a multiple of the limit |
| Pagination.NegativePageOffset | genericcrud_repositories/generic_repository_gorm.go:32-35 | negative pages are not corrected: when (page-1)·limit fits in int64, the offset is that product and is negative |
| Pagination.HugePageWrapsOffset | genericcrud_repositories/generic_repository_gorm.go:46 | the 64-bit product wraps: page MaxInt64 with size 10 gives offset -20 |
| Pagination.MinPageWrapsOffset | genericcrud_repositories/generic_repository_gorm.go:46 | the product wraps the other way: page MinInt64 with size 1 gives offset MaxInt64 |
| Pagination.LastWriteWins | genericcrud_repositories/generic_repository_gorm.go:21-49 | after three settings are stored in turn, each read returns the pair of the last one stored: (0, 10), then (50, 25) |
| Validation.TrimLeft | utils/validation.go:14 | drops exactly the leading white space: the result is a suffix, everything before it is space, and it does not start with space |
| Validation.TrimRight | utils/validation.go:14 | drops exactly the trailing white space: the result is a prefix, everything after it is space, and it does not end with space |
| Validation.Word | utils/validation.go:27 | the longest prefix free of white space |
| Validation.TrimSpace | utils/validation.go:14 | the trimmed text is no longer than the input and neither starts nor ends with white space; its meaning is given by TrimSpaceEmptyIffAllSpace and SingleField |
| Validation.IsSpace | utils/validation.go:14 | Go's `unicode.IsSpace`, used by the trim at line 14 and the split at line 27: within Latin-1 exactly `\t \n \v \f \r`, space, U+0085 and U+00A0, and never a character above U+3000; the body lists exactly the Unicode White_Space characters 9-13, 0x20, 0x85, 0xA0, 0x1680, 0x2000-0x200A, 0x2028, 0x2029, 0x202F, 0x205F and 0x3000, on which both trimming and splitting rest |
| Validation.Fields | utils/validation.go:27 | there are at most as many fields as characters; its meaning is given by FieldsCons and FieldsEmptyIffAllSpace, which together fix it on every input, and by FieldAt and SingleField |
| Validation.TrimLeftSpacePrefix | utils/validation.go:14 | removing leading white space from white space followed by text that does not start with it leaves exactly that text |
| Validation.FieldsCons | utils/validation.go:27 | white space, then a field ended by white space or by the end of the text, splits into that field followed by the fields of the rest; with FieldsEmptyIffAllSpace this makes the fields exactly the maximal runs of non-space characters, in order |
| Validation.FieldAt | utils/validation.go:27 | every field is non-empty and free of white space |
| Validation.TrimSpaceEmptyIffAllSpace | utils/validation.go:14-16 | text trims to "" exactly when it is all white space |
| Validation.FieldsEmptyIffAllSpace | utils/validation.go:27-31 | text splits into no field exactly when it is all white space |
| Validation.SingleField | utils/validation.go:18-20 | text splits into the single field w exactly when it trims to a non-empty w with no white space inside |
| Validation.IsNullOrEmpty | utils/validation.go:8-40 | the checks in the order of the Go code; a nil value and the verbatim `map[]` are empty; its full meaning is given by IsNullOrEmptyIff |
| Validation.NilIsEmpty | utils/validation.go:10-12 | a nil value is empty |
| Validation.BlankIsEmpty | utils/validation.go:14-16 | text made only of white space is empty |
| Validation.TrimmedBracesAreEmpty | utils/validation.go:18-20 | text that trims to `{}` is empty |
| Validation.EmptyMapIsEmpty | utils/validation.go:22-25 | the text `map[]`, exactly, is empty |
| Validation.SplitBracesAreEmpty | utils/validation.go:33-37 | text that splits into exactly the fields `{` and `}` is empty |
| Validation.FieldsCheckIsRedundant | utils/validation.go:27-31 | when splitting yields no field, the earlier trim check has already answered |
| Validation.BracesTrimIffSingleField | utils/validation.go:18-20 | text trims to `{}` exactly when it splits into the single field `{}` |
| Validation.IsNullOrEmptyIff | utils/validation.go:8-40 | a value is empty exactly when it is nil, is `map[]` verbatim, or splits into no field, into `{}` alone, or into `{` and `}` |
| Validation.OtherSingleFieldNotEmpty | utils/validation.go:39 | any other single field (not `{}`, and not the verbatim `map[]`) is not empty |
| Validation.SeveralFieldsNotEmpty | utils/validation.go:27-39 | text that splits into two or more fields, other than exactly `{` and `}`, is not empty (unless it is `map[]` verbatim) |
| Validation.ExampleNilPointer | utils/validation.go:8-40 | a typed nil pointer, printed `<nil>`, is not empty |
| StringIntConv.NatToDigits | utils/string_int_conv.go:17-20 | the canonical decimal digits of n, whose value is n |
| StringIntConv.ParseInt | utils/string_int_conv.go:9 | Go's `strconv.ParseInt(s, 10, 64)`: text parses exactly when, after an optional `+` or `-`, it is a non-empty digit string whose signed value lies in the int64 range, and then gives that value |
| StringIntConv.ConvertStrToInt64 | utils/string_int_conv.go:8-15 | the parsed value, or 0 when parsing fails; its meaning is given by ValidTextYieldsValue, NonZeroMeansSignedDigits and RoundTrip |
| StringIntConv.NonZeroMeansSignedDigits | utils/string_int_conv.go:8-15 | a non-zero result comes only from an optional sign followed by a non-empty digit string that denotes it |
| StringIntConv.ConvertInt64ToStr | utils/string_int_conv.go:17-20 | a leading `-` appears exactly for negative values, followed by the canonical digits of the absolute value |
| StringIntConv.RejectedTextYieldsZero | utils/string_int_conv.go:10-13 | text that does not parse gives 0 |
| StringIntConv.ValidTextYieldsValue | utils/string_int_conv.go:8-15 | unsigned, `+` or `-` digits within the int64 range give their value, leading zeros included |
| StringIntConv.OutOfRangeYieldsZero | utils/string_int_conv.go:8-15 | digits outside the int64 range give 0 |
| StringIntConv.RoundTrip | utils/string_int_conv.go:8-20 | parsing the formatted text gives back every int64 |
| StringIntConv.CanonicalDigitsUnique | utils/string_int_conv.go:17-20 | canonical digits are exactly what the formatter produces for their value |
| StringIntConv.CanonicalTextRoundTrip | utils/string_int_conv.go:8-20 | formatting the parsed value gives back every canonical decimal text in range |
| StringIntConv.RejectedExamples | utils/string_int_conv.go:8-15 | "", "-" and "12a" give 0 |
| StringIntConv.PlusSignExample | utils/string_int_conv.go:8-15 | "+007" gives 7 |
| StringIntConv.MinusSignExample | utils/string_int_conv.go:8-15 | "-15" gives -15 |
| StringIntConv.FormatExamples | utils/string_int_conv.go:17-20 | -15 and 0 format as "-15" and "0" |
| Responses.SetResponse | responses/generic_response.go:11-24 | the envelope keeps the status and message and has the single key `result`, which holds the payload (nil included) |
| Responses.SetResponseInjective | responses/generic_response.go:11-24 | two envelopes are equal exactly when their status, message and payload are |
| Responses.NilPayloadEnvelope | responses/generic_response.go:19-23 | a nil payload gives the map `{"result": nil}` |
| Mapper.Overlay | utils/mapper.go:24-31 | reference merge: the keys of both maps, with incoming values winning and other previous values kept |
| Mapper.AlterDynamicProperty | utils/mapper.go:15-35 | the loop returns the incoming map when there is no previous value, and the overlay of the incoming map on the previous one otherwise |
| Mapper.OverlayEmpty | utils/mapper.go:28-30 | merging an empty incoming map leaves the previous one unchanged |
| Mapper.OverlayIdempotent | utils/mapper.go:28-30 | merging the same incoming map twice is the same as merging it once |
| Mapper.OverlayOntoEmpty | utils/mapper.go:24-34 | merging onto an empty previous map gives the same result as having no previous value |
| Mapper.OverlaySequential | utils/mapper.go:28-30 | two merges in a row equal a single merge of the overlaid incoming maps |
| QueryOutcomes.GetOneByModelPropertiesCheckIdPresence | genericcrud_repositories/generic_repository_gorm.go:197-215 | the row is always returned; there is no error exactly when `result.DB()` reported none and the id text is non-empty; an empty id gives `record not found` |
| QueryOutcomes.PropertyLookupIdCheck | genericcrud_repositories/generic_repository_gorm.go:201-213 | an error from `result.DB()` is passed through unchanged; otherwise the error is `record not found` exactly when the id text is empty |
| QueryOutcomes.PatchById | genericcrud_repositories/generic_repository_gorm.go:217-245 | succeeds exactly when the fetch and the update raise no error and some row changed; returns the patched record then and the zero value otherwise; a fetch error is returned as it is |
| QueryOutcomes.UpdateById | genericcrud_repositories/generic_repository_gorm.go:247-280 | succeeds exactly when the fetch, the structure copy and the update raise no error and some row changed; returns the merged record then and the zero value otherwise; a fetch or copy error is returned as it is |
| QueryOutcomes.UpdateErrorTakesPrecedence | genericcrud_repositories/generic_repository_gorm.go:234-237 | an update error is returned unchanged, whatever the row count |
| QueryOutcomes.ZeroRowsIsNotApplied | genericcrud_repositories/generic_repository_gorm.go:239-242 | an update that changes no row reports `not patched` or `not updated`, together with the zero value |
| QueryOutcomes.PatchAndUpdateAgree | genericcrud_repositories/generic_repository_gorm.go:217-280 | patching and updating (with no copy error) return the same value and succeed in the same cases |
| QueryOutcomes.AfterDelete | genericcrud_repositories/generic_repository_gorm.go:300-312 | the count is positive exactly when the delete raised no error and removed rows, and it is then the row count; the delete's error is passed through |
| QueryOutcomes.DeleteHardById | genericcrud_repositories/generic_repository_gorm.go:282-313 | the count is never negative; it is positive exactly when every step succeeded and rows were removed, and then the error is nil; a fetch or copy error gives count 0 with that error |
| QueryOutcomes.DeleteFetched | genericcrud_repositories/generic_repository_gorm.go:315-353 | as the hard delete, with a further requirement for a positive count: the fetched `id` must not be empty; fetch and copy errors are returned as they are |
| QueryOutcomes.DeleteSoftById | genericcrud_repositories/generic_repository_gorm.go:315-353 | an empty fetched id gives count 0 with `no record found with id: <id>`; a positive count is the row count, with no error |
| QueryOutcomes.DeletePermanentById | genericcrud_repositories/generic_repository_gorm.go:355-393 | the same outcome rules as the soft delete |
| QueryOutcomes.DeleteOfNothingReportsNoError | genericcrud_repositories/generic_repository_gorm.go:306-310 | a delete that raises no error but removes no row returns (0, nil) in all three variants |
| QueryOutcomes.ZeroCountErrorIff | genericcrud_repositories/generic_repository_gorm.go:317-350 | a soft or permanent delete returns an error exactly when some step failed or the id check stopped it |
| QueryOutcomes.EmptyIdIgnoresDelete | genericcrud_repositories/generic_repository_gorm.go:323-327 | once the fetched id is empty, neither the structure copy nor the delete can change the outcome |
| QueryOutcomes.MissingIdIsNotFound | genericcrud_repositories/generic_repository_gorm.go:323-327 | a nil id lookup is reported as `no record found with id: <id>`, by the soft delete and equally by the permanent one (lines 363-367) |

## Left out

- The ORM and database calls themselves (`First`, `Where`, `Update`, `Updates`, `Delete`, `Unscoped`, `Scan`, `Preload`, `Omit`, `Find`). Each is replaced by its observed error and affected-row count, or by the record it scanned.
- `Create` and `CreateBatch` are not modelled. `Create` calls `log.Panic` when `result.DB()` fails (lines 55-58). When the id of the record is empty, it returns the record with a nil error (lines 61-64). `CreateBatch` returns an empty slice with a nil error when nothing was scanned back (lines 83-86).
- `GetAll`, `GetAllByFields`, `GetOneById` and `GetOneSoftDeletedById` are not modelled as operations. The model takes the outcome of the fetch as an input (`fetchErr`). The offset and limit that `GetAll` and `GetAllByFields` hand to the ORM are those of `PaginationParams`.
- The reads test only `result.DB()` (lines 168-172, 189-193, 201-205), which fails only when no database handle can be obtained. The query's own error (`result.Error`, for instance a record that is not found, or an SQL error) is discarded by the source. The model follows this: `fetchErr` and `queryErr` are the `result.DB()` errors.
- `preloadsHandler` and `omitsHandler` are not modelled: they only chain ORM options.
- Logging (`log.Println`, `fmt.Println`) is not modelled. `log.Panic` and the process exit it causes are left out too.
- PatchById: the second test of the fetch error (lines 225-228) can never fire and is omitted. The snake-case conversion of the column name (`stringy`) is not modelled, and the update is taken as its observed result.
- UpdateById, DeleteHardById, DeleteSoftById and DeletePermanentById: the structure copy (`mapstructure.Decode`) is modelled only by its error.
- GetOneByModelPropertiesCheckIdPresence: reflection is not modelled, and `idText` is taken as the string that `FieldByName("Id").String()` gives. That string is "" only for a string-typed `Id` that is empty. A missing field gives `<invalid Value>` and a field of another type gives a text such as `<int Value>`, so for those the id check never fires.
- DeleteSoftById and DeletePermanentById: `SafeGetFromInterface` and the `%v` printing of a value are not modelled. `fetchedId` is the value already printed, together with its nil flag.
- IsNullOrEmpty, ConvertStrToInt64 and ParseInt: Go strings are byte sequences, while the model's strings are sequences of Unicode characters. `strings.TrimSpace`, `strings.Fields` and `strconv.ParseInt` decode UTF-8 or look only at ASCII bytes. Invalid UTF-8 decodes to U+FFFD, which is not white space, is not a digit or sign, and matches none of the compared literals, so the verdicts do not depend on the encoding. The model does not capture the byte-level representation itself.
- IsNullOrEmpty: Go's `%v` formatting is not modelled. The function takes the printed text and the nil flag as inputs.
- AlterDynamicProperty: JSON parsing with gabs is not modelled. The previous value is given already parsed, and `None` stands for text that does not parse or for JSON null. The panics that a failed type assertion causes (in `ConvertInterfaceToMapOfStringKey`, for a non-object previous value or a non-map incoming value) are left out, because the inputs are typed as maps.
- AlterDynamicProperty: the in-place update of the parsed map, which the caller cannot observe, is modelled by reassigning a local `map`.
- ConvertStrToInt64: the message of the parse error and its logging are not modelled.
- The pagination setting is a single unsynchronised global, so concurrent requests in Go can overwrite each other's setting. That race is not modelled: the class models sequential use only.
- PaginationState.PaginationParams: the nil dereference before any `SetPagination` (a panic in Go) is turned into a precondition.
- Go's platform-dependent `int` is modelled as 64 bits.
- The Gin controllers, the JSON helpers, the logger package and the tests are outside the modelled core.
