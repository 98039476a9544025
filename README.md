# Field extraction for Hungarian identity and vehicle documents

This project models, in Dafny, the field-extraction engine of an OCR service
for Hungarian and EU documents. The service sends an image to an OCR model,
receives markdown-flavoured text, and turns that text into typed, canonical
field values for one document kind: the current and the old-style identity
card (front and back), the EU driving licence, the address card, the
passport and the vehicle registration certificate. The model starts where
the OCR text is known and ends with the result `process_document` builds.

What is modelled, and what is proved about it:

- **Line handling and label scanning** (`core/utils/ocr_text.py`,
  `core/utils/extract.py`): OCR line normalisation, line splitting, the
  first-label search, the value after a label, cutting at the next label, the
  bounded forward scan, the guarded next-line read and the strategy of
  `extract_from_label` (same line, then forward scan, then a whole-text
  fallback). The loops are methods proved against specification functions,
  and each primitive is tied to a reference definition (the line it stops
  at, the length it keeps, the label it never returns).
- **Dates** (`core/utils/normalize.py`, `core/utils/rules.py`): the five
  date shapes, the month-name table with its two-digit-year rule, Gregorian
  validity, and the output in ISO 8601 calendar form: every date returned is
  valid and occurs in the text, the list is strictly ascending and without
  duplicates, and `ddmmyy_from_iso` inverts the ISO form.
- **MRZ helpers** (`core/utils/ocr_text.py`): the TD1 block selection of
  ICAO Doc 9303 Part 5, the check digit of ICAO Doc 9303 Part 3, section 4.9
  (weights 7, 3, 1; filler and letters by value), and the YYMMDD century
  rule against a date passed in.
- **Canonicalisers**: the identity-card number (six digits, two letters),
  the address-card number ("dddddd XX"), the registration document number
  (two letters, five digits) and the VIN (seventeen characters without I, O
  and Q). For each: exactly which inputs are accepted, that the output has
  the canonical shape, and that normalising twice changes nothing.
- **Per-document extractors and processors**: every extractor of the eight
  document kinds, with the positional date policies (earliest and latest on
  the identity card, min / second / max on the passport), the guarded reads,
  the driving-licence field codes 1, 2, 3, 4a to 4d and 5 (Directive
  2006/126/EC, Annex I), the registration codes A to V.9 (Council Directive
  1999/37/EC, Annex I) with the C-block cut, the "printed twice" document
  number and the towing-block summary. Each processor fills its schema keys
  and nothing else.
- **Post-processing**: the address card's cross-field rules (a foreign
  permanent address clears its reporting time and a birth place naming
  Hungary; a temporary reporting time not earlier than the validity drops
  both) and the registration post-processor.
- **Dispatch and unification** (`documents/registry.py`,
  `pipeline/service.py`): the type-to-processor table, and the fixed
  `personal_data` / `vehicle_data` key sets.
- **Upload-type helpers** (`api/routes.py`): data-URL stripping, magic-byte
  sniffing, extension precedence and the size limit per type.
- **Both code generations**: the earlier helpers (`core/utils/text.py`,
  `core/utils/normalization.py`) and the earlier processors
  (`documents/processors/id_front.py`, `id_back.py`) live in their own
  modules (`Text`, `Normalization`, `LegacyIdFront`, `LegacyIdBack`), with
  lemmas relating them to their later counterparts.

Where the code as written does not do what it evidently means, the model
keeps both: a member for the code as written, which the processors use, and
a corrected member with the intended property proved (see "## Findings").

Modules and the files they model:

| module | file |
|---|---|
| `Base`, `Chars`, `PyStr`, `Regex`, `Pattern` | Python's `None`, exceptions, `str` methods and regex matches |
| `Fields` | the field dictionaries and their keys |
| `Calendar`, `DateRules`, `Normalize` | `core/utils/normalize.py`, `core/utils/rules.py` |
| `IdNumber` | `documents/id_front/normalize.py` |
| `OcrText` | `core/utils/ocr_text.py` |
| `LabelScan` | `core/utils/extract.py` |
| `Text` | `core/utils/text.py` |
| `Normalization` | `core/utils/normalization.py` |
| `IdFront`, `IdBack`, `IdOldFront`, `IdOldBack` | `documents/id_*/extract.py` and `processor.py` |
| `LegacyIdFront`, `LegacyIdBack` | `documents/processors/id_front.py`, `id_back.py` |
| `DrivingLicense` | `documents/driving_license/extract.py`, `processor.py` |
| `AddressRules`, `AddressCard`, `AddressCardPost`, `AddressCardProcessor` | `documents/address_card/*.py` |
| `Passport` | `documents/passport/extract.py`, `processor.py` |
| `RegistrationRules`, `Registration`, `RegistrationTowing`, `RegistrationPost`, `RegistrationProcessor` | `documents/registration/*.py` |
| `Registry` | `documents/registry.py` |
| `Service` | `pipeline/service.py` |
| `Routes` | `api/routes.py` |
| `Imports` | the import statements of the modules that import from `core/utils/normalize.py` |

## Model

| member | source | states |
|---|---|---|
| Calendar.SafeDate | src/ocr_service/core/utils/normalize.py:7-11 | A date exactly when the year, month and day form a valid calendar date (Gregorian leap years), and then that date; None where `date()` raises |
| Calendar.DigitsValueOf | src/ocr_service/core/utils/normalize.py:97-107 | Reading back a number written out at a width that fits it gives the number: the ISO fields parse back |
| Calendar.DigitsOfValue | src/ocr_service/core/utils/normalize.py:32 | Writing out the value `int(g)` of a digit group at the group's own width gives the group back |
| Calendar.DigitsLastTwo | src/ocr_service/core/utils/normalize.py:105 | The last two of four year digits are the two digits of the year modulo 100, the `yyyy[-2:]` of `ddmmyy_from_iso` |
| Calendar.DigitsOrder | src/ocr_service/core/utils/normalize.py:95 | Zero-padded numbers of one width compare as strings the way their values compare |
| Calendar.IsoOf | src/ocr_service/core/utils/normalize.py:95 | `isoformat()` gives ten characters, '-' at positions 4 and 7 and digits elsewhere |
| Calendar.IsoRoundTrip | src/ocr_service/core/utils/normalize.py:95 | Reading the fields of `d.isoformat()` back gives `d` |
| Calendar.IsoSlices | src/ocr_service/core/utils/normalize.py:97-107 | The slices 2-4, 5-7 and 8-10 of an ISO date are the two-digit year, the month and the day |
| Calendar.IsoInjective | src/ocr_service/core/utils/normalize.py:95 | Two dates with the same ISO string are the same date, so writing out keeps dates distinct |
| Calendar.IsoOrder | src/ocr_service/core/utils/normalize.py:95 | ISO strings of valid dates compare as strings exactly as the dates compare in time, so the string order of the output is chronological |
| Calendar.Insert | src/ocr_service/core/utils/normalize.py:35 | `found.add(dt)` on a sorted arrangement: stays ascending without repeats and holds exactly the old dates plus the new one |
| Calendar.SortDates | src/ocr_service/core/utils/normalize.py:95 | The dates of `ds` in strictly ascending order, each once and no others |
| Calendar.AscendingUnique | src/ocr_service/core/utils/normalize.py:95 | Two ascending sequences with the same members are equal, so `sorted(found)` is determined by the set |
| Calendar.Isos | src/ocr_service/core/utils/normalize.py:95 | `[dt.isoformat() for dt in ...]`: one ISO string per date, in the same order |
| Calendar.IsosAscending | src/ocr_service/core/utils/normalize.py:95 | The ISO strings of strictly ascending valid dates are strictly ascending as strings |
| Calendar.SortedIsos | src/ocr_service/core/utils/normalize.py:95 | The ISO strings of the distinct dates of `ds`, strictly ascending, each an ISO date, and a valid date is among them exactly when it is in `ds` |
| Calendar.SortedIsosOf | src/ocr_service/core/utils/normalize.py:95 | Any ascending arrangement of the same valid dates, written out, gives `SortedIsos`: the result does not depend on the order the dates were found in |
| Calendar.HasEarliest | src/ocr_service/core/utils/normalize.py:95 | A non-empty finite set of dates has an earliest member, so `sorted` can always take one |
| Calendar.SortSet | src/ocr_service/core/utils/normalize.py:95 | `sorted(found)` on a set, as a loop: an ascending sequence holding exactly the set's dates |
| DateRules.MonthMapTwins | src/ocr_service/core/utils/rules.py:41-66 | In every month row of `MONTH_MAP` each ASCII abbreviation and the same abbreviation with a dot are both keys |
| DateRules.RowTwinnedLow | src/ocr_service/core/utils/rules.py:42-53 | Rows January to June hold each abbreviation and its dotted twin |
| DateRules.RowTwinnedHigh | src/ocr_service/core/utils/rules.py:54-65 | Rows July to December hold each abbreviation and its dotted twin |
| DateRules.MonthFromFirst | src/ocr_service/core/utils/rules.py:41-66 | Looking a key up from row j finds the first row at or after j that holds it |
| DateRules.AbbreviationMonths | src/ocr_service/core/utils/rules.py:41-66 | Every ASCII abbreviation and its dotted twin map to their own month, 1 to 12, in `MONTH_MAP.get` |
| DateRules.EarlierAbsentFeb | src/ocr_service/core/utils/rules.py:44 | The February abbreviations and their dotted forms are not keys of an earlier month |
| DateRules.EarlierAbsentMar | src/ocr_service/core/utils/rules.py:46 | The March abbreviations and their dotted forms are not keys of an earlier month |
| DateRules.EarlierAbsentApr | src/ocr_service/core/utils/rules.py:48 | The April abbreviations and their dotted forms are not keys of an earlier month |
| DateRules.EarlierAbsentMay | src/ocr_service/core/utils/rules.py:50 | The May abbreviations and their dotted forms are not keys of an earlier month |
| DateRules.EarlierAbsentJun | src/ocr_service/core/utils/rules.py:52 | The June abbreviations and their dotted forms are not keys of an earlier month |
| DateRules.EarlierAbsentJul | src/ocr_service/core/utils/rules.py:54 | The July abbreviations and their dotted forms are not keys of an earlier month |
| DateRules.EarlierAbsentAug | src/ocr_service/core/utils/rules.py:56 | The August abbreviations and their dotted forms are not keys of an earlier month |
| DateRules.EarlierAbsentSep | src/ocr_service/core/utils/rules.py:58 | The September abbreviations and their dotted forms are not keys of an earlier month |
| DateRules.EarlierAbsentOct | src/ocr_service/core/utils/rules.py:60 | The October abbreviations and their dotted forms are not keys of an earlier month |
| DateRules.EarlierAbsentNov | src/ocr_service/core/utils/rules.py:62 | The November abbreviations and their dotted forms are not keys of an earlier month |
| DateRules.EarlierAbsentDec | src/ocr_service/core/utils/rules.py:64 | The December abbreviations and their dotted forms are not keys of an earlier month |
| DateRules.MonthGet | src/ocr_service/core/utils/rules.py:41-66 | `MONTH_MAP.get(key)`: a month 1 to 12 whose row holds the key, or None exactly when no row holds it |
| DateRules.MonthFrom | src/ocr_service/core/utils/rules.py:41-66 | The first month at or after row k whose row holds the key, None when none from k on does |
| DateRules.DayMonthYearGroups | src/ocr_service/core/utils/rules.py:9 | A `DATE_DDMMYYYY` match holds a 1-2 digit day and month, a 4-digit year and separator runs of `.`, `-`, `/` or space with whitespace |
| DateRules.YearMonthDayGroups | src/ocr_service/core/utils/rules.py:12 | A `DATE_YYYYMMDD` match holds a 4-digit year, a 1-2 digit month and day and separator runs of `.`, `-`, `/` or space |
| DateRules.DayMonYearGroups | src/ocr_service/core/utils/rules.py:35-38 | A `DATE_DD_MON_YY` match holds a 1-2 digit day, a month word of at least three letters and exactly two year digits |
| Normalize.DropDot | src/ocr_service/core/utils/normalize.py:15 | `t[:-1] if t.endswith(".") else t`: a final dot is removed, and only then |
| Normalize.MonthOfKey | src/ocr_service/core/utils/normalize.py:16 | `MONTH_MAP.get(t) or MONTH_MAP.get(t + ".")` gives a month 1 to 12 or None |
| Normalize.MonthTokenToNum | src/ocr_service/core/utils/normalize.py:13-16 | `_month_token_to_num` gives a month 1 to 12 or None |
| Normalize.MonthKeyDot | src/ocr_service/core/utils/normalize.py:14-15 | A trimmed token without a final dot and the same token with a dot get the same lookup key |
| Normalize.MonthTokenDot | src/ocr_service/core/utils/normalize.py:13-16 | A token and the same token followed by a dot name the same month |
| Normalize.SlashParts | src/ocr_service/core/utils/normalize.py:48 | `[p.strip() for p in tok.split("/") if p.strip()]` holds no empty part |
| Normalize.FirstSomeIsFirst | src/ocr_service/core/utils/normalize.py:50-53 | The part loop that breaks on the first month: None exactly when no part names a month, else the first part that does |
| Normalize.SlashMonth | src/ocr_service/core/utils/normalize.py:48-55 | The month of a "Júl/Jul" group is a month 1 to 12 or None |
| Normalize.CenturyYear | src/ocr_service/core/utils/normalize.py:89 | A two-digit year becomes a year 1950 to 2049 with the same last two digits |
| Normalize.NatOf | src/ocr_service/core/utils/normalize.py:32 | `int(g)` is defined on a decimal digit group and is its value |
| Normalize.MatchDate | src/ocr_service/core/utils/normalize.py:31-93 | The date one match of a shape denotes is a valid date whenever there is one |
| Normalize.MatchDates | src/ocr_service/core/utils/normalize.py:31-35 | The dates of a shape's matches are all valid |
| Normalize.ShapeDates | src/ocr_service/core/utils/normalize.py:31-93 | What one `finditer` loop adds are valid dates |
| Normalize.Candidates | src/ocr_service/core/utils/normalize.py:29-93 | Everything the five loops add are valid dates |
| Normalize.DatesIso | src/ocr_service/core/utils/normalize.py:18-95 | `parse_dates_iso`: [] for empty text; otherwise strictly ascending ISO date strings |
| Normalize.DatesIsoMembers | src/ocr_service/core/utils/normalize.py:18-95 | A valid date's ISO string is in the result exactly when one of the five shapes finds that date: nothing invented, nothing lost |
| Normalize.MatchDatesSnoc | src/ocr_service/core/utils/normalize.py:31-35 | One more match adds that match's date, if it has one, and nothing else |
| Normalize.AddMatchDates | src/ocr_service/core/utils/normalize.py:31-35 | The body of one `finditer` loop: the new set is the old set plus the valid dates of the matches |
| Normalize.AddShapeDates | src/ocr_service/core/utils/normalize.py:31-35 | One `finditer` loop adds exactly the dates its shape finds |
| Normalize.ParseDatesIso | src/ocr_service/core/utils/normalize.py:18-95 | The five loops over the set `found` and the sorted write-out return exactly `DatesIso` |
| Normalize.Dotted | src/ocr_service/documents/id_front/extract.py:80 | `d.replace("-", ".")` keeps the length and adds no space |
| Normalize.IsoDateTokens | src/ocr_service/documents/id_front/extract.py:71-82 | ISO dates have ten characters and no space, so each is one token |
| Normalize.NormWs | src/ocr_service/documents/address_card/postprocess.py:5 | `norm_ws` (documented behaviour): whitespace runs become one space with none at the ends; a missing value reads as "" |
| Normalize.EmptyToNone | src/ocr_service/documents/address_card/postprocess.py:5 | `empty_to_none` (documented behaviour): a non-empty collapsed value, or None for a missing or blank one |
| Normalize.EmptyToNoneIdempotent | src/ocr_service/documents/address_card/postprocess.py:5 | Normalising an already normalised value changes nothing |
| Normalize.LastTwo | src/ocr_service/core/utils/normalize.py:105 | `s[-2:]`: the last two characters, or the whole string when it is shorter |
| Normalize.DdMmYyFromIso | src/ocr_service/core/utils/normalize.py:97-107 | None for "" and for a string that does not split into exactly three '-'-parts (the unpacking that raises); otherwise a value |
| Normalize.SplitIsoShape | src/ocr_service/core/utils/normalize.py:104 | A ten-character string with '-' exactly at 4 and 7 splits into its year, month and day fields |
| Normalize.DdMmYyOfIso | src/ocr_service/core/utils/normalize.py:97-107 | On an ISO date the result is the day, the month and the year's last two characters |
| Normalize.DdMmYy | src/ocr_service/core/utils/normalize.py:105 | The DDMMYY form of a date has six characters |
| Normalize.DdMmYyOfDate | src/ocr_service/core/utils/normalize.py:97-107 | On the ISO form of a valid date the result is that date's two-digit day, month and year |
| Normalize.SexDecision | src/ocr_service/core/utils/normalize.py:129-137 | "NŐ" exactly when the raw text is non-empty and the female test holds; "FÉRFI" exactly when it is non-empty, the female test fails and the male test holds; otherwise None |
| Normalize.NormalizeSex | src/ocr_service/core/utils/normalize.py:110-137 | "NŐ" exactly when a female token or "N/F" is present; "FÉRFI" exactly when no female mark is there and a male token or "F/M" is; None otherwise and for empty input |
| IdNumber.MapFix | src/ocr_service/documents/id_front/normalize.py:25-30 | A zone fix rewrites each character on its own and keeps the length |
| IdNumber.Compact | src/ocr_service/documents/id_front/normalize.py:15 | `raw.strip().upper().replace(" ", "")` holds no space |
| IdNumber.Zones | src/ocr_service/documents/id_front/normalize.py:21-47 | When the zone checks pass, the result has eight characters: the digit fix of each of the first six and the letter fix of each of the last two |
| IdNumber.NormalizeIdNumberOf | src/ocr_service/documents/id_front/normalize.py:4-47 | None for empty input and for a compacted form not of length 8; a result is the digit fix of the first six compacted characters and the letter fix of the last two |
| IdNumber.ZonesIff | src/ocr_service/documents/id_front/normalize.py:32-47 | The zone checks succeed exactly when the fixed first six characters are digits and the fixed last two are letters |
| IdNumber.NormalizeIdNumberAccepts | src/ocr_service/documents/id_front/normalize.py:4-47 | A result exactly when the input is non-empty, compacts to eight characters, and the fixed zones are six digits and two letters |
| IdNumber.CompactNoLower | src/ocr_service/documents/id_front/normalize.py:15 | The compacted form has no lower-case letter |
| IdNumber.NormalizeIdNumberShape | src/ocr_service/documents/id_front/normalize.py:47 | A result is six digits followed by two upper-case letters |
| IdNumber.FixDigitZone | src/ocr_service/documents/id_front/normalize.py:24-30 | The in-place loop over `first6` leaves exactly the digit fix of each character |
| IdNumber.FixLetterZone | src/ocr_service/documents/id_front/normalize.py:36-41 | The in-place loop over `last2` leaves exactly the letter fix of each character |
| IdNumber.NormalizeIdNumber | src/ocr_service/documents/id_front/normalize.py:4-47 | The function with its two loops returns exactly `NormalizeIdNumberOf(raw)` |
| IdNumber.NormalizeIdNumberIdempotent | src/ocr_service/documents/id_front/normalize.py:4-47 | A canonical number is its own canonical form |
| IdNumber.NormalizeIdNumberCaseInsensitive | src/ocr_service/documents/id_front/normalize.py:15 | Inputs that agree once upper-cased have the same canonical form |
| Fields.Get | src/ocr_service/documents/id_front/processor.py:32 | `fields.get(k)`: None for a key that was never set, the stored value otherwise |
| Fields.Empty | src/ocr_service/documents/registration/schema.py:19-24 | `empty()`: a record holding exactly the schema keys, every one None |
| Fields.Project | src/ocr_service/documents/id_front/processor.py:32 | `{k: fields.get(k) for k in FIELDS}`: exactly the schema keys, each holding the value set for it or None |
| Fields.NormalizeAll | src/ocr_service/documents/registration/postprocess.py:90-93 | The opening pass of both post-processors: the same keys, each value replaced by its `empty_to_none` form |
| Fields.NormalizeEach | src/ocr_service/documents/address_card/postprocess.py:57-61 | The key-by-key loop leaves exactly `NormalizeAll` of the input |
| Routes.StripDataUrl | src/ocr_service/api/routes.py:26-32 | The result is stripped; text that after stripping does not start with "data:", or has no comma, is returned stripped and otherwise unchanged |
| Routes.StripDataUrlPayload | src/ocr_service/api/routes.py:26-32 | "data:" + a comma-free header + "," + payload gives the stripped payload, whatever the payload holds |
| Routes.DataUrlAfterComma | src/ocr_service/api/routes.py:28-31 | Any prefix starting with "data:" whose only comma is its last character is cut off, and the payload comes back stripped |
| Routes.StrippedUrl | src/ocr_service/api/routes.py:27 | Stripping the whole URL keeps the prefix and strips only the payload's ends |
| Routes.FirstComma | src/ocr_service/api/routes.py:29 | `s.find(",")` on such a URL is the position of the prefix's final comma |
| Routes.StripDataUrlAt | src/ocr_service/api/routes.py:29-31 | With the first comma at `c`, the result is the stripped text after it |
| Routes.StripBounds | src/ocr_service/api/routes.py:27 | `strip()` cuts exactly the leading and trailing whitespace: what is kept starts and ends with non-whitespace |
| Routes.StripUnique | src/ocr_service/api/routes.py:27 | A slice with no whitespace at its ends and only whitespace outside it is the strip |
| Routes.Name | src/ocr_service/api/routes.py:37-43 | The name of a chosen type is one of "jpg", "png", "webp", "pdf" |
| Routes.SniffExt | src/ocr_service/api/routes.py:35-44 | None exactly when the bytes start with none of the PDF, JPEG and PNG signatures and are not a RIFF container of form "WEBP" |
| Routes.SniffSignatures | src/ocr_service/api/routes.py:35-44 | Bytes starting with each signature are sniffed as that type, whatever follows: the signatures do not shadow each other |
| Routes.DotLess | src/ocr_service/api/routes.py:48 | `strip().lower().lstrip(".")` leaves no leading dot |
| Routes.NormalizeExt | src/ocr_service/api/routes.py:47-49 | A normalised extension is never "jpeg" and never starts with a dot |
| Routes.NormalizeExtFixed | src/ocr_service/api/routes.py:47-49 | A trimmed, capital-free text with no leading dot other than "jpeg" normalises to itself |
| Routes.NormalizeExtNames | src/ocr_service/api/routes.py:47-49 | "jpg", "png", "webp" and "pdf" normalise to themselves |
| Routes.NormalizeExtJpeg | src/ocr_service/api/routes.py:49 | "jpeg" normalises to "jpg" |
| Routes.NormalizeExtCase | src/ocr_service/api/routes.py:48 | Upper-casing the input does not change the normalised extension |
| Routes.NormalizeExtDot | src/ocr_service/api/routes.py:48 | A leading dot does not change the normalised extension |
| Routes.AllowedExt | src/ocr_service/api/routes.py:22 | A type exactly when the extension is in `ALLOWED_EXT` |
| Routes.AllowedNormalized | src/ocr_service/api/routes.py:59-63 | A normalised extension that is allowed is the name of the type it selects |
| Routes.ChooseExt | src/ocr_service/api/routes.py:52-91 | Every rejection is an HTTP 400 |
| Routes.ExplicitWins | src/ocr_service/api/routes.py:58-63 | A non-empty explicit extension decides alone: the bytes, file name and content type are not consulted; it is rejected exactly when its normalised form is not allowed, and otherwise that form is chosen |
| Routes.FallbackOrder | src/ocr_service/api/routes.py:65-91 | Without an explicit extension a recognised content type wins over the file name and the bytes, and an allowed suffix over the bytes; with neither, a type is chosen exactly when there are bytes that sniff as one |
| Routes.MaxBytesForExt | src/ocr_service/api/routes.py:94-95 | The PDF limit exactly for "pdf", the image limit for every other extension |
| Text.WordsOfStrip | src/ocr_service/core/utils/text.py:8 | `split()` after `strip()` gives the same words as `split()` alone |
| Text.NormalizeWhitespace | src/ocr_service/core/utils/text.py:7-8 | The whitespace-collapsed text (single spaces, none at the ends), empty exactly when the input is blank |
| Text.NormalizeWhitespaceIdempotent | src/ocr_service/core/utils/text.py:7-8 | Normalising twice is normalising once |
| Text.StripFilter | src/ocr_service/core/utils/text.py:17-19 | Removing the decoration before or after the strip gives the same collapsed text |
| Text.StripMarkdown | src/ocr_service/core/utils/text.py:10-19 | "" stays ""; otherwise the result is the later `normalize_ocr_line` of the text: stripped, decoration removed, whitespace collapsed |
| Text.LabelFilters | src/ocr_service/core/utils/text.py:29-31 | Collapsing, dropping parentheses and then spaces keeps exactly the label's characters other than whitespace and parentheses |
| Text.NormalizeDlLabel | src/ocr_service/core/utils/text.py:21-33 | The label's characters other than whitespace and parentheses, lower-cased |
| Text.NormalizeDlLabelShape | src/ocr_service/core/utils/text.py:21-33 | A normalised label has no whitespace, no parenthesis and no capital |
| Text.NormalizeDlLabelExamples | src/ocr_service/core/utils/text.py:23-25 | The docstring's labels "4 (a)", "4(a)" and "4A" all normalise to "4a" |
| Text.NormalizeDlLabelIdempotent | src/ocr_service/core/utils/text.py:21-33 | Normalising a normalised label changes nothing |
| Text.NormalizeDlLabelGenerations | src/ocr_service/core/utils/text.py:21-33 | On a label without dots this normaliser and the driving-licence one agree |
| Text.WsLines | src/ocr_service/core/utils/text.py:42-45 | The kept lines are non-empty and collapsed, no more than there were raw lines |
| Text.SplitLinesOf | src/ocr_service/core/utils/text.py:35-46 | `split_lines`: [] for empty text; every line returned is non-empty and whitespace-collapsed |
| Text.WsLinesUndecorated | src/ocr_service/core/utils/text.py:35-46 | On lines without markdown decoration the earlier and the later `split_lines` keep the same lines |
| Text.SplitLinesFixed | src/ocr_service/core/utils/text.py:43-45 | Every line returned is its own whitespace-normal form |
| Text.SplitLines | src/ocr_service/core/utils/text.py:35-46 | The loop returns exactly `SplitLinesOf(text)` |
| Text.NextNonEmptyOf | src/ocr_service/core/utils/text.py:48-55 | A line after `start_idx` that is not blank, returned as it is; None exactly when the later `next_non_empty` finds none, and otherwise that one returns this line stripped |
| Text.NextNonEmpty | src/ocr_service/core/utils/text.py:48-55 | The loop returns exactly `NextNonEmptyOf(lines, start_idx)` |
| Text.GroupValue | src/ocr_service/core/utils/text.py:66-68 | `strip_markdown` of the group, with "" and a missing group read as None |
| Text.ExtractValueFromMatch | src/ocr_service/core/utils/text.py:57-76 | Reads a match exactly as the later `match_value` does |
| Text.ExtractInlineValue | src/ocr_service/core/utils/text.py:79-85 | The later `search_value`; a value found is non-empty and whitespace-collapsed |
| Text.LineValues | src/ocr_service/core/utils/text.py:105-111 | At most one value per line, none of them empty |
| Text.LineValuesConcat | src/ocr_service/core/utils/text.py:106-110 | The values of two blocks of lines are the values of the first followed by those of the second |
| Text.LineValuesMembers | src/ocr_service/core/utils/text.py:100-111 | A value is among the separate values exactly when some line gives it |
| Text.LineValuesSnoc | src/ocr_service/core/utils/text.py:106-110 | One more line appends that line's value, if any |
| Text.ExtractInlineSeparateValues | src/ocr_service/core/utils/text.py:100-111 | The loop returns exactly every line's value, in line order |
| Text.FirstLineValue | src/ocr_service/core/utils/text.py:88-98 | None exactly when no line gives a value |
| Text.FirstLineValueIsFirst | src/ocr_service/core/utils/text.py:88-98 | The line-by-line search returns the first of the separate values |
| Text.ExtractInlineValueFromLines | src/ocr_service/core/utils/text.py:88-98 | The loop returns exactly `FirstLineValue(lines, pattern)` |
| Text.ExtractNextlineValueOf | src/ocr_service/core/utils/text.py:134-142 | None without a label line; otherwise the first label line's next non-empty line, markdown stripped, which is the later `nextline_value` normalised |
| Text.ExtractNextlineValue | src/ocr_service/core/utils/text.py:134-142 | The loop returns exactly `ExtractNextlineValueOf(lines, label)` |
| Text.ExtractNextlineValueGuardedOf | src/ocr_service/core/utils/text.py:113-132 | The unguarded value unless a stop pattern matches it, then None; a value returned never matches a stop pattern |
| Text.GuardedFirstLabelOnly | src/ocr_service/core/utils/text.py:122-131 | When a stop pattern blocks the first label line's value, the result is None even if a later label line has an acceptable next line |
| Text.AnyStopMatches | src/ocr_service/core/utils/text.py:128-130 | The stop loop reports exactly whether some stop pattern matches |
| Text.ExtractNextlineValueGuarded | src/ocr_service/core/utils/text.py:113-132 | The loop returns exactly `ExtractNextlineValueGuardedOf(lines, label, stops)` |
| Text.Choose | src/ocr_service/core/utils/text.py:197-205 | The result is the new or the existing value; a missing or empty existing value is always replaced; under "longest" it is at least as long as the new one |
| Text.Merge | src/ocr_service/core/utils/text.py:207-209 | A key has a value exactly when some value was seen for it |
| Text.MergeFirst | src/ocr_service/core/utils/text.py:204-205 | Under the default policy non-empty values keep the first one |
| Text.MergeLast | src/ocr_service/core/utils/text.py:200-201 | Under "last" the last value is kept |
| Text.MergeLongest | src/ocr_service/core/utils/text.py:202-203 | Under "longest" the earliest of the longest values is kept |
| Text.ExtractKvPairsFromLine | src/ocr_service/core/utils/text.py:144-179 | Every call raises NameError: its first statement calls `normalize_line_for_kv`, defined nowhere |
| Text.ExtractKvPairsFromLines | src/ocr_service/core/utils/text.py:182-211 | Succeeds exactly on no lines, with the empty dictionary; on any line it raises that NameError |
| Text.SplitBirthDateAndPlace | src/ocr_service/core/utils/text.py:214-239 | (None, None) exactly for a missing or empty value; any other value raises that NameError |
| Normalization.MonthGet | src/ocr_service/core/utils/patterns.py:83-108 | `MONTH_MAP.get(key)` of the earlier table: a month 1 to 12 whose row holds the key, None exactly when no row does |
| Normalization.MonthFrom | src/ocr_service/core/utils/patterns.py:83-108 | The first month at or after row k whose row holds the key, None when none from k on does |
| Normalization.MonthMapTwins | src/ocr_service/core/utils/patterns.py:83-108 | In every month row each ASCII abbreviation and its dotted twin are both keys |
| Normalization.RowTwinnedLow | src/ocr_service/core/utils/patterns.py:84-95 | Rows January to June hold each abbreviation and its dotted twin |
| Normalization.RowTwinnedHigh | src/ocr_service/core/utils/patterns.py:96-107 | Rows July to December hold each abbreviation and its dotted twin |
| Normalization.RowAgreesLow | src/ocr_service/core/utils/patterns.py:84-95 | On ASCII keys rows January to June of this table and of the later one hold the same keys |
| Normalization.RowAgreesHigh | src/ocr_service/core/utils/patterns.py:96-107 | On ASCII keys rows July to December of this table and of the later one hold the same keys |
| Normalization.MonthFromAgrees | src/ocr_service/core/utils/patterns.py:83-108 | An ASCII key gets the same month from both tables |
| Normalization.MonthTokenToNum | src/ocr_service/core/utils/normalization.py:12-16 | `_month_token_to_num` gives a month 1 to 12 or None |
| Normalization.MonthTokenDot | src/ocr_service/core/utils/normalization.py:12-16 | A token and the same token followed by a dot name the same month |
| Normalization.MonthTokenAgrees | src/ocr_service/core/utils/normalization.py:12-16 | A token whose lookup key is ASCII names the same month in both generations |
| Normalization.SlashMonth | src/ocr_service/core/utils/normalization.py:38-46 | The month of a "Júl/Jul" group, the first part that names one, is 1 to 12 or None |
| Normalization.MatchDate | src/ocr_service/core/utils/normalization.py:23-49 | The date one match of a shape denotes is a valid date whenever there is one |
| Normalization.MatchDates | src/ocr_service/core/utils/normalization.py:23-26 | The dates of a shape's matches are all valid |
| Normalization.ShapeDates | src/ocr_service/core/utils/normalization.py:23-49 | What one `finditer` loop adds are valid dates |
| Normalization.Candidates | src/ocr_service/core/utils/normalization.py:21-49 | Everything the three loops add are valid dates |
| Normalization.ExtractDatesOf | src/ocr_service/core/utils/normalization.py:18-51 | `extract_dates`: [] for empty text; otherwise strictly ascending ISO date strings |
| Normalization.ExtractDatesMembers | src/ocr_service/core/utils/normalization.py:18-51 | A valid date's ISO string is in the result exactly when one of the three shapes finds that date |
| Normalization.MatchDatesSnoc | src/ocr_service/core/utils/normalization.py:23-26 | One more match adds that match's date, if it has one, and nothing else |
| Normalization.AddMatchDates | src/ocr_service/core/utils/normalization.py:23-26 | The body of one `finditer` loop: the new set is the old set plus the valid dates of the matches |
| Normalization.AddShapeDates | src/ocr_service/core/utils/normalization.py:23-26 | One `finditer` loop adds exactly the dates its shape finds |
| Normalization.ExtractDates | src/ocr_service/core/utils/normalization.py:18-51 | The three loops over the set `found` and the sorted write-out return exactly `ExtractDatesOf` |
| Normalization.MatchDateAgrees | src/ocr_service/core/utils/normalization.py:23-31 | A numeric match denotes the same date in both generations |
| Normalization.MatchDatesAgree | src/ocr_service/core/utils/normalization.py:23-31 | A numeric shape's matches give the same dates in both generations |
| Normalization.InShapesDates | src/ocr_service/core/utils/normalize.py:29-93 | A shape's dates are among the dates of any list of shapes holding it |
| Normalization.NumericShapeAgrees | src/ocr_service/core/utils/normalization.py:23-31 | A numeric shape finds the same dates here as in `parse_dates_iso` |
| Normalization.NumericInCandidates | src/ocr_service/core/utils/normalization.py:23-31 | Every date a numeric shape finds here is found by the later parser's shapes |
| Normalization.MatchDateOfEmpty | src/ocr_service/core/utils/normalization.py:19-20 | No match in the empty text denotes a date |
| Normalization.MatchDatesOfEmpty | src/ocr_service/core/utils/normalization.py:19-20 | No list of matches in the empty text gives a date |
| Normalization.FoundInNonEmpty | src/ocr_service/core/utils/normalization.py:19-20 | A shape that finds a date was given non-empty text |
| Normalization.NumericDatesKept | src/ocr_service/core/utils/normalization.py:18-51 | Every date found by a numeric shape of `extract_dates` is also reported by the later `parse_dates_iso` |
| Normalization.NormalizeSexAsWritten | src/ocr_service/core/utils/normalization.py:66-82 | As written: "NŐ" exactly when the upper-cased text holds a female mark ("N/F", "NŐ", a word starting "NO", a lone "N"); "FÉRFI" exactly when it does not and holds "FÉRFI", "FERFI" or a lone "M" or "F"; otherwise None |
| Normalization.NormalizeSex | src/ocr_service/core/utils/normalization.py:66-82 | Intended: the same, with the documented token "F/M" also read as male |
| Normalization.NormalizeSexDiffers | src/ocr_service/core/utils/normalization.py:69-79 | The two differ only on text holding "F/M", which the as-written one leaves unrecognised and the intended one reads as "FÉRFI" |
| Normalization.PaddedNo | src/ocr_service/core/utils/normalization.py:76 | A text starting with "NO" holds " NO" once padded with spaces |
| Normalization.FemaleOfNo | src/ocr_service/core/utils/normalization.py:76 | A text starting with "NO" has a female mark |
| Normalization.StartingNoIsFemale | src/ocr_service/core/utils/normalization.py:76-77 | Both versions give "NŐ" for any text whose upper case starts with "NO", such as "NOV" |
| Normalization.LoneLetterIsMale | src/ocr_service/core/utils/normalization.py:79-80 | Both versions give "FÉRFI" for text holding a standalone "M" or "F" and no female mark |
| Normalization.FMHasNoFemaleMark | src/ocr_service/core/utils/normalization.py:76 | "F/M" holds no female mark |
| Normalization.FMHasNoMaleMarkAsWritten | src/ocr_service/core/utils/normalization.py:79 | "F/M" holds none of the male marks as written |
| Normalization.SexFMUnrecognised | src/ocr_service/core/utils/normalization.py:66-82 | The documented token "F/M" gives None as written and "FÉRFI" as intended |
| OcrText.NormalizeOcrLine | src/ocr_service/core/utils/ocr_text.py:108-117 | Decoration removed, whitespace stripped and collapsed: no decoration character remains, and the result is empty exactly when the text without decoration is blank |
| OcrText.NormalizeOcrLineIdempotent | src/ocr_service/core/utils/ocr_text.py:108-117 | Normalising a normalised line changes nothing |
| OcrText.CleanLineFixed | src/ocr_service/core/utils/ocr_text.py:108-117 | A collapsed line without decoration is its own normal form and is stripped |
| OcrText.OrNone | src/ocr_service/core/utils/ocr_text.py:156 | `v or None`: a value exactly when the text is non-empty, and then the text |
| OcrText.KeptLines | src/ocr_service/core/utils/ocr_text.py:126-129 | The kept lines are clean (non-empty, collapsed, without decoration), no more than there were raw lines |
| OcrText.SplitLinesOf | src/ocr_service/core/utils/ocr_text.py:119-130 | `split_lines`: [] for empty text; every line returned is clean |
| OcrText.SplitOneLine | src/ocr_service/core/utils/ocr_text.py:119-130 | A text without a line break gives its normal form as its only line, or nothing when that is empty |
| OcrText.SplitLines | src/ocr_service/core/utils/ocr_text.py:119-130 | The loop returns exactly `SplitLinesOf(text)` |
| OcrText.FirstNonBlank | src/ocr_service/core/utils/ocr_text.py:138-141 | The first index from `from` on whose line is not blank; None exactly when all lines from there are blank |
| OcrText.NextNonEmptyOf | src/ocr_service/core/utils/ocr_text.py:133-142 | A line returned is non-empty and stripped |
| OcrText.NextNonEmpty | src/ocr_service/core/utils/ocr_text.py:133-142 | The loop returns exactly `NextNonEmptyOf(lines, start_idx)` |
| OcrText.MatchValue | src/ocr_service/core/utils/ocr_text.py:144-161 | None for no match and for a match with neither a `value` group nor any group taking part; the normalised `value` group when there is one; a value is non-empty and collapsed |
| OcrText.SearchValue | src/ocr_service/core/utils/ocr_text.py:164-169 | None when the pattern does not match; a value is non-empty, collapsed and not blank |
| OcrText.MrzNormalize | src/ocr_service/core/utils/ocr_text.py:15-18 | After upper-casing, removing spaces, mapping the guillemets to '<' and dropping the rest, only A-Z, 0-9 and '<' remain, and nothing is added |
| OcrText.MrzClean | src/ocr_service/core/utils/ocr_text.py:12-19 | `_mrz_clean` leaves only MRZ characters |
| OcrText.MrzNormalizeKeepsClean | src/ocr_service/core/utils/ocr_text.py:15-18 | A line of MRZ characters comes through unchanged |
| OcrText.MrzNormalizeIdempotent | src/ocr_service/core/utils/ocr_text.py:15-18 | Cleaning twice is cleaning once |
| OcrText.PadOrTrim30 | src/ocr_service/core/utils/ocr_text.py:26-29 | Exactly 30 characters: the line's own, then '<' filler |
| OcrText.MrzValue | src/ocr_service/core/utils/ocr_text.py:31-39 | The ICAO values: digits 0-9, letters 10-35, anything else 0 |
| OcrText.MrzValueInjective | src/ocr_service/core/utils/ocr_text.py:31-39 | Two digits or capital letters with the same value are equal: each digit and letter has its own value |
| OcrText.Weight | src/ocr_service/core/utils/ocr_text.py:42 | The weight of a position is 7, 3 or 1 |
| OcrText.CheckDigitOf | src/ocr_service/core/utils/ocr_text.py:41-46 | The check digit is one decimal digit |
| OcrText.MrzCheckDigit | src/ocr_service/core/utils/ocr_text.py:41-46 | The weighted-sum loop returns exactly `CheckDigitOf(field)` |
| OcrText.WeightedSumPrefix | src/ocr_service/core/utils/ocr_text.py:44-45 | The weighted sum of the first n characters does not depend on what follows them |
| OcrText.CheckDigitFiller | src/ocr_service/core/utils/ocr_text.py:37-38 | A '<' filler added to a field does not change its check digit |
| OcrText.CheckDigitExample | src/ocr_service/core/utils/ocr_text.py:41-46 | The worked example of ICAO 9303: the check digit of "990101" is "8" |
| OcrText.DobBonus | src/ocr_service/core/utils/ocr_text.py:74-79 | The bonus is 0 or 5 |
| OcrText.ScoreOf | src/ocr_service/core/utils/ocr_text.py:68-79 | A triple's score is at most 5 |
| OcrText.Score | src/ocr_service/core/utils/ocr_text.py:68-79 | The score of the triple at `i` is at most 5 |
| OcrText.TripleScore | src/ocr_service/core/utils/ocr_text.py:68-79 | The penalty and bonus statements compute exactly `ScoreOf` |
| OcrText.Td1Lines | src/ocr_service/core/utils/ocr_text.py:64-66 | The three lines of a triple have 30 characters each |
| OcrText.FirstBest | src/ocr_service/core/utils/ocr_text.py:81-82 | `score > best[0]`: an index with the highest score, earlier indices scoring strictly less; None exactly when there is no score |
| OcrText.Starts | src/ocr_service/core/utils/ocr_text.py:60 | No triple starts at or after `len(lines) - 2` |
| OcrText.TripleScores | src/ocr_service/core/utils/ocr_text.py:60-79 | One entry per start index: a score exactly where three MRZ-ish lines start, and then that triple's score |
| OcrText.BestTriple | src/ocr_service/core/utils/ocr_text.py:57-84 | The chosen start has three MRZ-ish lines |
| OcrText.BestTripleIsBest | src/ocr_service/core/utils/ocr_text.py:57-84 | The chosen triple has the highest score and is the earliest with it; there is none exactly when no three consecutive lines are MRZ-ish |
| OcrText.CleanedLines | src/ocr_service/core/utils/ocr_text.py:53 | One cleaned line per input line, in order |
| OcrText.Td1Block | src/ocr_service/core/utils/ocr_text.py:48-84 | A block found has three 30-character lines |
| OcrText.FindMrzTd1Block | src/ocr_service/core/utils/ocr_text.py:48-84 | The loop returns exactly `Td1Block(lines)` |
| OcrText.MrzCentury | src/ocr_service/core/utils/ocr_text.py:98-99 | `1900 + yy if yy > pivot else 2000 + yy`: the last two digits are `yy`, a 20th-century year above the pivot and a 21st-century one otherwise |
| OcrText.ParseMrzBirthDate | src/ocr_service/core/utils/ocr_text.py:86-105 | A date is returned only for a six-digit token, and it is an ISO date |
| OcrText.MrzTokenFields | src/ocr_service/core/utils/ocr_text.py:93-95 | Each two-digit field of the token is written back as itself |
| OcrText.ParsedDate | src/ocr_service/core/utils/ocr_text.py:101-105 | A returned value is the ISO form of a valid date, from a six-digit token |
| OcrText.ParseMrzBirthDateDigits | src/ocr_service/core/utils/ocr_text.py:86-105 | The result's two-digit year, month and day are the token's three fields, and its year follows the century rule |
| LabelScan.KeepNonEmptyFixed | src/ocr_service/core/utils/extract.py:21-27 | Non-empty lines the normaliser leaves alone are all kept, unchanged and in order |
| LabelScan.NormKeptOfClean | src/ocr_service/core/utils/extract.py:21-27 | Lines that are already clean pass the `norm_lines` loop unchanged |
| LabelScan.NormLinesOf | src/ocr_service/core/utils/extract.py:15-28 | `norm_lines` returns exactly the lines of `split_lines`, in the same order, each clean |
| LabelScan.KeptLinesConcat | src/ocr_service/core/utils/ocr_text.py:126-129 | The lines of two blocks of text are the lines of the first followed by those of the second: the order is kept |
| LabelScan.NormEach | src/ocr_service/core/utils/extract.py:21-27 | The loop over the split lines keeps exactly the non-empty normalised lines |
| LabelScan.NormLines | src/ocr_service/core/utils/extract.py:15-28 | The function returns exactly `NormLinesOf(text)` |
| LabelScan.FirstLabelFrom | src/ocr_service/core/utils/extract.py:43-47 | The least index at or after `from` whose line matches, with its match; None exactly when no line from there matches |
| LabelScan.FirstLabel | src/ocr_service/core/utils/extract.py:35-47 | `find_first_label`: the least index at or after `max(0, start)` whose line matches, with the match; None exactly when none does |
| LabelScan.FindFirstLabel | src/ocr_service/core/utils/extract.py:35-47 | The loop returns exactly `FirstLabel(lines, label_re, start)` |
| LabelScan.LabelIdx | src/ocr_service/core/utils/extract.py:50-56 | `find_label_idx`: the least matching index at or after `max(0, start)`, None exactly when none matches |
| LabelScan.StripInfix | src/ocr_service/core/utils/extract.py:67 | `strip()` leaves a contiguous piece of its input |
| LabelScan.DropSeps | src/ocr_service/core/utils/extract.py:68-69 | The separator loop leaves a text no longer than its input that does not start with a separator |
| LabelScan.DropSepsSuffix | src/ocr_service/core/utils/extract.py:68-69 | The separator loop only cuts a prefix |
| LabelScan.DropInfix | src/ocr_service/core/utils/extract.py:67-69 | Stripping and then dropping separators leaves a piece of the text |
| LabelScan.ValueInfix | src/ocr_service/core/utils/extract.py:67-70 | The value is a piece of the text after the match |
| LabelScan.ValueAfterMatchOf | src/ocr_service/core/utils/extract.py:63-70 | `value_after_match`: a stripped piece of the line's text after the match |
| LabelScan.ValueAfterMatchStart | src/ocr_service/core/utils/extract.py:63-70 | With the default separators ":. " the value starts with neither ':', '.' nor whitespace |
| LabelScan.DropSepsLead | src/ocr_service/core/utils/extract.py:68-69 | On text without leading whitespace, what the loop leaves has none either |
| LabelScan.ValueAfterMatch | src/ocr_service/core/utils/extract.py:63-70 | The loop returns exactly `ValueAfterMatchOf(line, m, chars)` |
| LabelScan.ValueAfterColon | src/ocr_service/core/utils/extract.py:73-84 | None for an empty line or no ':' at or after `start_pos`; otherwise the normalised text after that colon, non-empty and collapsed, or None when that is empty |
| LabelScan.MinStart | src/ocr_service/core/utils/extract.py:94-98 | The least start of any stop-label match, or the length when that is smaller; it is one of those starts or the length |
| LabelScan.CutAtNextLabelSpec | src/ocr_service/core/utils/extract.py:87-99 | "" for an empty remainder; otherwise the stripped prefix before the earliest stop-label match, the whole remainder stripped when no stop label matches |
| LabelScan.CutAtNextLabel | src/ocr_service/core/utils/extract.py:87-99 | The loop returns exactly `CutAtNextLabelOf(remainder, stops)` |
| LabelScan.NextlineValue | src/ocr_service/core/utils/extract.py:111-122 | None without a label line; otherwise the first non-blank line after the first label line, stripped, and never empty |
| LabelScan.NextlineOfClean | src/ocr_service/core/utils/extract.py:111-122 | On normalised lines the value is simply the line after the first label line |
| LabelScan.NextlineValueGuarded | src/ocr_service/core/utils/extract.py:132-153 | A value is returned only after a label line and when it is no stop label; `found_label` exactly when a label line exists; `blocked_by_stop` only with a label and no value; otherwise the unguarded value |
| LabelScan.ScanEnd | src/ocr_service/core/utils/extract.py:172 | The window never ends past the lines |
| LabelScan.ScanFrom | src/ocr_service/core/utils/extract.py:173-187 | The loop settles, if at all, on an index inside `[j, end)` |
| LabelScan.ScanFromAccepted | src/ocr_service/core/utils/extract.py:175-185 | The line the scan settles on is non-blank, not a stop line, not skipped and accepted |
| LabelScan.ScanForwardOf | src/ocr_service/core/utils/extract.py:156-187 | `scan_forward`: a value is non-empty, no stop line, not skipped and accepted |
| LabelScan.ScanForwardWindow | src/ocr_service/core/utils/extract.py:172-185 | The value is the stripped line at an index strictly after `start_idx`, at most `max_lines` further on |
| LabelScan.ScanFromPassed | src/ocr_service/core/utils/extract.py:174-186 | Every line passed over before the chosen one is blank, or no stop line and skipped or not accepted |
| LabelScan.ScanFromReaches | src/ocr_service/core/utils/extract.py:174-186 | A line the scan could settle on, with no stop line before it, is reached: the scan settles on it or on an earlier line |
| LabelScan.ScanFromCongruent | src/ocr_service/core/utils/extract.py:156-187 | The scan depends on its predicates only through their values |
| LabelScan.ScanAcceptOfClean | src/ocr_service/core/utils/extract.py:156-187 | On clean lines the scan returns the first accepted line of its window, with no stop line before it |
| LabelScan.ScanAcceptReaches | src/ocr_service/core/utils/extract.py:156-187 | On clean lines an accepted line of the window with no stop line before it is always found |
| LabelScan.ScanForward | src/ocr_service/core/utils/extract.py:156-187 | The loop returns exactly `ScanForwardOf(lines, start_idx, ...)` |
| LabelScan.ScanFromWindow | src/ocr_service/core/utils/extract.py:172-174 | Lines past the window's end do not change the result |
| LabelScan.ScanStopsFirst | src/ocr_service/core/utils/extract.py:179-180 | A stop line reached before any accepted line ends the scan with None |
| LabelScan.FallbackValue | src/ocr_service/core/utils/extract.py:194-205 | A non-empty stripped value; None when the pattern finds nothing in the normalised text (the raw text when that is empty); group 1, stripped, whenever any group took part |
| LabelScan.FromLinesIgnoresFallback | src/ocr_service/core/utils/extract.py:246-272 | What is read from the lines does not depend on the fallback pattern or the full text |
| LabelScan.Fallback | src/ocr_service/core/utils/extract.py:248-249 | None unless both the fallback pattern and the full text are given, and then `fallback_value` of them |
| LabelScan.FromLines | src/ocr_service/core/utils/extract.py:246-272 | A value read from the lines passes `ok`; without a label line there is none |
| LabelScan.ExtractFromLabel | src/ocr_service/core/utils/extract.py:212-278 | The value read from the lines when there is one, and it passes `ok`; the fallback otherwise |
| LabelScan.ExtractFromLabelPrecedence | src/ocr_service/core/utils/extract.py:246-278 | Without a label line the fallback decides; an accepted same-line candidate wins; then the first accepted line of the scan; only then the fallback |
| LabelScan.ScannedValueNotStop | src/ocr_service/core/utils/extract.py:262-272 | A scanned value is no stop-label line and is the stripped text of a line after the label line |
| AddressRules.StopLabels | src/ocr_service/documents/address_card/rules.py:63-72 | `STOP_LABELS` holds the eight label patterns |
| AddressRules.StopLabelIff | src/ocr_service/documents/address_card/rules.py:63-72 | A line is a stop label exactly when one of the eight address-card labels matches it |
| AddressRules.LetterStart | src/ocr_service/documents/address_card/rules.py:49 | The letter zone starts right after the six digits or after one optional space |
| AddressRules.DocnoFrom | src/ocr_service/documents/address_card/rules.py:48-50 | The least position at or after `p` where `DOCNO_VALUE` matches; None exactly when it matches at none |
| AddressRules.DocnoValue | src/ocr_service/documents/address_card/rules.py:48-50 | `DOCNO_VALUE.search`: a match at a matching position spanning six digits, the optional space and two letters, with three groups and no `value` group |
| AddressRules.DocnoValueLeast | src/ocr_service/documents/address_card/rules.py:48-50 | The search finds the least matching position, and finds nothing exactly when no position matches |
| AddressRules.DocnoGroups | src/ocr_service/documents/address_card/rules.py:49 | Group 1 is the six digit-zone characters, group 2 the two letter-zone characters, and the whole match spans both |
| AddressRules.CanonIsDocno | src/ocr_service/documents/address_card/rules.py:48-52 | A text of the `DOCNO_CANON` shape is itself one `DOCNO_VALUE` match, with its digits as group 1 and its letters as group 2 |
| AddressRules.ForeignAddressSpacing | src/ocr_service/documents/address_card/rules.py:54 | Re-spacing whitespace does not change whether `FOREIGN_ADDRESS_VALUE` matches the whole value |
| AddressRules.SpelledToken | src/ocr_service/documents/address_card/rules.py:54 | Each accepted spelling of the two words is a token of the pattern |
| AddressRules.ForeignAddressSpellings | src/ocr_service/documents/address_card/rules.py:54 | "KÜLFÖLDI CÍM" in any of its accented or unaccented spellings matches |
| AddressRules.HungaryWordFound | src/ocr_service/documents/address_card/rules.py:56 | `HUNGARY_WORD` finds a spelling of "Magyarország" standing as a word anywhere in a text |
| AddressCard.FirstIsoDateIn | src/ocr_service/documents/address_card/extract.py:26-28 | None exactly when the text mentions no date; otherwise the ISO form of the earliest date it mentions |
| AddressCard.DateOfValue | src/ocr_service/documents/address_card/extract.py:219 | `_first_iso_date_in(v) if v else None`: None for a missing value, the value's earliest date otherwise |
| AddressCard.SpacedDots | src/ocr_service/documents/address_card/extract.py:41-45 | The spaced-dot spelling, when the split gives three parts, is non-empty |
| AddressCard.RemoveDatesOf | src/ocr_service/documents/address_card/extract.py:30-47 | None for empty input; a value is non-empty and whitespace-collapsed |
| AddressCard.ScrubDates | src/ocr_service/documents/address_card/extract.py:37-45 | The replacement loop leaves exactly `Scrub(s, dates)` |
| AddressCard.RemoveDates | src/ocr_service/documents/address_card/extract.py:30-47 | The function returns exactly `RemoveDatesOf(s)` |
| AddressCard.RemoveDatesNoDates | src/ocr_service/documents/address_card/extract.py:30-47 | Text that mentions no date is only re-spaced |
| AddressCard.ScrubKeepsFree | src/ocr_service/documents/address_card/extract.py:38-43 | Replacing pieces by spaces never creates an occurrence of a space-free string |
| AddressCard.ScrubOneKeepsFree | src/ocr_service/documents/address_card/extract.py:38-43 | One round keeps a space-free string absent and removes the date's ISO and dotted spellings |
| AddressCard.ScrubFree | src/ocr_service/documents/address_card/extract.py:37-45 | After the loop no found date is left in its ISO or its dotted spelling |
| AddressCard.RemoveDatesFree | src/ocr_service/documents/address_card/extract.py:30-47 | The result contains none of the input's dates in ISO or dotted spelling |
| AddressCard.ValueLine | src/ocr_service/documents/address_card/extract.py:49-73 | None without a label line; a value is non-empty and stripped |
| AddressCard.ScanNextOfClean | src/ocr_service/documents/address_card/extract.py:65-73 | On normalised lines the scan that takes the first non-blank line settles on the next line unless it is a stop label |
| AddressCard.TailTrimmed | src/ocr_service/documents/address_card/extract.py:60-63 | The same-line value is never blank and is its own strip |
| AddressCard.ValueLineOfClean | src/ocr_service/documents/address_card/extract.py:49-73 | On normalised lines: the same-line value when the label line has one, else the next line unless that is a stop label |
| AddressCard.ValueTwoLines | src/ocr_service/documents/address_card/extract.py:76-110 | None without a label line |
| AddressCard.ContinuedOfClean | src/ocr_service/documents/address_card/extract.py:98-110 | On normalised lines the continuation is the next line unless it is a stop label |
| AddressCard.ValueTwoLinesOfClean | src/ocr_service/documents/address_card/extract.py:76-110 | On normalised lines: the same-line value followed by the next line, or the next line followed by the one after it, a stop label ending the value |
| AddressCard.CleanLinesFixed | src/ocr_service/documents/address_card/processor.py:18 | Normalised lines are non-empty and their own strip |
| AddressCard.FirstDateAfter | src/ocr_service/documents/address_card/extract.py:113-124 | A date found is an ISO date |
| AddressCard.FirstDateAfterOfClean | src/ocr_service/documents/address_card/extract.py:113-124 | On normalised lines the date is the earliest date of the first line of the window that mentions one, no stop label before it |
| AddressCard.FirstDateAfterReaches | src/ocr_service/documents/address_card/extract.py:113-124 | A line of the window that mentions a date, with no stop label up to it, always yields a date |
| AddressCard.LabelLineDate | src/ocr_service/documents/address_card/extract.py:179-181 | The label line's own earliest date when it mentions one, else the first date within the six lines after it |
| AddressCard.UpperZones | src/ocr_service/documents/address_card/extract.py:139 | Upper-casing keeps the digit zone in its class and the letter zone in its class |
| AddressCard.DocnoOfMatchShape | src/ocr_service/documents/address_card/extract.py:139 | `f"{m.group(1)} {m.group(2)}".upper()` of a match has the document-number shape |
| AddressCard.DocnoOfValue | src/ocr_service/documents/address_card/extract.py:136-139 | A number exactly when the value is present, non-empty and holds a `DOCNO_VALUE` match, and then of the document-number shape |
| AddressCard.ExtractDocumentNumberAsWritten | src/ocr_service/documents/address_card/extract.py:127-139 | As written, a number found has the document-number shape |
| AddressCard.DocnoWhole | src/ocr_service/documents/address_card/rules.py:48-50 | With the groups non-capturing there is a match exactly where `DOCNO_VALUE` has one, reporting only the whole match |
| AddressCard.ExtractDocumentNumber | src/ocr_service/documents/address_card/extract.py:127-139 | Corrected, a number found has the document-number shape |
| AddressCard.DocnoNotInGroupOne | src/ocr_service/core/utils/extract.py:203-204 | What the fallback returns (group 1, six characters) never holds a `DOCNO_VALUE` match |
| AddressCard.DocumentNumberFallbackLost | src/ocr_service/documents/address_card/extract.py:127-139 | As written, whenever the title label does not yield the number the result is None: the fallback's six characters fail the second `DOCNO_VALUE` search |
| AddressCard.DocnoAtOwnMatch | src/ocr_service/documents/address_card/rules.py:49 | A match read on its own matches at its start, with the same zones |
| AddressCard.DocnoValueAtStart | src/ocr_service/documents/address_card/rules.py:49 | A text that matches at its start is found there, its groups being its two zones |
| AddressCard.DocnoValueGroups | src/ocr_service/documents/address_card/rules.py:49 | The groups of the match the search reports are the slices of its zones |
| AddressCard.DocnoOfWholeMatch | src/ocr_service/documents/address_card/rules.py:49 | The whole match, read on its own, is a match spanning all of it with the same two groups |
| AddressCard.DocnoWholeTrimmed | src/ocr_service/documents/address_card/rules.py:49 | A match starts and ends with non-whitespace |
| AddressCard.DocumentNumberFallback | src/ocr_service/documents/address_card/extract.py:127-139 | Corrected, when the title label does not yield it the number is the first `DOCNO_VALUE` match of the normalised text, as "DDDDDD LL" upper-cased |
| AddressCard.DocumentNumberFromLabelAgrees | src/ocr_service/documents/address_card/extract.py:127-139 | A number the title label yields is the same as written and corrected |
| AddressCard.PlaceValue | src/ocr_service/documents/address_card/extract.py:151-152 | A place is non-empty and whitespace-collapsed |
| AddressCard.BirthDate | src/ocr_service/documents/address_card/extract.py:145-183 | An ISO date; None without the label; otherwise the date of the label line |
| AddressCard.PlaceContinuedOfClean | src/ocr_service/documents/address_card/extract.py:166-176 | On normalised lines the continuation is the line after the anchor unless it is a stop label or nothing is left of it once its dates are removed |
| AddressCard.CollapsedComma | src/ocr_service/documents/address_card/extract.py:176 | Two collapsed non-empty texts joined by ", " are collapsed |
| AddressCard.JoinPlaceCollapsed | src/ocr_service/documents/address_card/extract.py:176 | `" ".join(f"{a}, {b}".split())` of collapsed texts is just `a + ", " + b` |
| AddressCard.BirthPlaceRepeats | src/ocr_service/documents/address_card/extract.py:155-176 | As written, a place read from the line after a bare label line is appended to itself, "p, p": the continuation scan starts at the label line and finds the place line again |
| AddressCard.BirthPlaceOfClean | src/ocr_service/documents/address_card/extract.py:145-176 | Corrected, the continuation is looked for after the line the place was read from |
| AddressCard.BirthPlaceNoRepeat | src/ocr_service/documents/address_card/extract.py:155-176 | In the case the written version gets wrong, the corrected one appends the line after the place line |
| AddressCard.FirstMatchBetween | src/ocr_service/documents/address_card/extract.py:202-204 | The least index in `[from, hi)` whose line matches; None exactly when none does |
| AddressCard.EndOf | src/ocr_service/documents/address_card/extract.py:201-202 | `min(end, len(lines))`, no more than either |
| AddressCard.ReportingTimeIdxBetween | src/ocr_service/documents/address_card/extract.py:198-205 | The first reporting-time label strictly after `start` and before the end; None exactly when there is none |
| AddressCard.FindReportingTimeIdxBetween | src/ocr_service/documents/address_card/extract.py:198-205 | The loop returns exactly `ReportingTimeIdxBetween` |
| AddressCard.PermanentBlockLabel | src/ocr_service/documents/address_card/extract.py:209-216 | A label index lies after the permanent address label and before the next temporary address label; None exactly when there is no such label |
| AddressCard.PermanentReportingTime | src/ocr_service/documents/address_card/extract.py:208-219 | A date is an ISO date and needs a reporting-time label inside the permanent block |
| AddressCard.PermanentReportingTimeAtBlock | src/ocr_service/documents/address_card/extract.py:208-219 | When the first reporting-time label is the one inside the block, the date is read at it |
| AddressCard.MinPresent | src/ocr_service/documents/address_card/extract.py:230-233 | None exactly when no bound is present; otherwise a present bound no larger than any other |
| AddressCard.EndBound | src/ocr_service/documents/address_card/extract.py:230-233 | The loop leaves exactly `MinPresent` of the two bounds |
| AddressCard.ReportingDateAt | src/ocr_service/documents/address_card/extract.py:241-253 | A date is an ISO date |
| AddressCard.TemporaryReportingTime | src/ocr_service/documents/address_card/extract.py:222-253 | A date is an ISO date |
| AddressCard.TemporaryReportingTimeAnchored | src/ocr_service/documents/address_card/extract.py:222-253 | A date is read at the first reporting-time label inside the temporary block, which ends at the nearer of the next validity and issuing-authority labels |
| AddressCard.TemporaryValidity | src/ocr_service/documents/address_card/extract.py:256-258 | An ISO date, None without the validity label |
| AddressCard.AuthorityAndIssueDate | src/ocr_service/documents/address_card/extract.py:261-273 | Both None without the label; the authority as `_extract_value_line` reads it; the issue date is an ISO date read from the label line as the birth date is |
| AddressCardPost.NormalizeDocno | src/ocr_service/documents/address_card/postprocess.py:25-54 | A number returned is canonical, "dddddd LL" with its one space at index 6 |
| AddressCardPost.DocnoDigitNotSpace | src/ocr_service/documents/address_card/rules.py:49 | A digit-zone character is not whitespace, so `.strip()` leaves the zone whole |
| AddressCardPost.DigitZoneMended | src/ocr_service/documents/address_card/postprocess.py:12-18 | A digit-zone character, upper-cased and mended by `_DIGIT_FIX`, is a decimal digit |
| AddressCardPost.LetterZoneMended | src/ocr_service/documents/address_card/postprocess.py:20-23 | A letter-zone character, upper-cased and mended by `_LETTER_FIX`, is a letter A to Z |
| AddressCardPost.MendedZones | src/ocr_service/documents/address_card/postprocess.py:41-48 | Two zones of `DOCNO_VALUE` characters are mended, character by character, into a canonical number |
| AddressCardPost.CandidateCanonical | src/ocr_service/documents/address_card/postprocess.py:37-48 | The zones of any match are mended into a canonical number, each character the mended upper-case of the matched one |
| AddressCardPost.NormalizeDocnoIff | src/ocr_service/documents/address_card/postprocess.py:25-54 | The strict `DOCNO_CANON` check never rejects a candidate: a number comes out exactly when `DOCNO_VALUE` matches the normalised value, and it is that match's mended zones |
| AddressCardPost.UpperStrOfNoLower | src/ocr_service/documents/address_card/postprocess.py:45-46 | Upper-casing leaves a text without lower-case letters alone |
| AddressCardPost.MapFixOfFixed | src/ocr_service/documents/address_card/postprocess.py:45-46 | A translation that leaves each character of a zone alone leaves the zone alone |
| AddressCardPost.CanonZonesFixed | src/ocr_service/documents/address_card/postprocess.py:41-46 | The zones of a canonical number survive stripping, upper-casing and translation unchanged |
| AddressCardPost.CandidateOfCanon | src/ocr_service/documents/address_card/postprocess.py:37-48 | A match whose zones are those of a canonical number gives back that number |
| AddressCardPost.NormalizeDocnoCanonical | src/ocr_service/documents/address_card/postprocess.py:25-54 | A canonical number is left as it is |
| AddressCardPost.NormalizeDocnoIdempotent | src/ocr_service/documents/address_card/postprocess.py:25-54 | Normalising a normalised number changes nothing |
| AddressCardPost.Postprocess | src/ocr_service/documents/address_card/postprocess.py:56-87 | The method leaves exactly `PostprocessOf(fields)`: the normalisation loop, then the four rules in order |
| AddressCardPost.ApplyRules | src/ocr_service/documents/address_card/postprocess.py:63-87 | The successive updates of `out` leave exactly the four-rule result |
| AddressCardPost.ForeignOfNormalized | src/ocr_service/documents/address_card/postprocess.py:67 | Normalising whitespace does not change whether the permanent address is the foreign-address marker |
| AddressCardPost.ForeignStable | src/ocr_service/documents/address_card/postprocess.py:64-85 | The rules never change the permanent address, so each later rule sees the same foreign-address verdict |
| AddressCardPost.RulesKeys | src/ocr_service/documents/address_card/postprocess.py:63-87 | The rules leave the keys of their input and "document_number", plus "permanent_reporting_time" exactly when the address is foreign |
| AddressCardPost.PostprocessKeys | src/ocr_service/documents/address_card/postprocess.py:56-87 | The output keys are the input keys and "document_number", plus "permanent_reporting_time" exactly when the permanent address is foreign |
| AddressCardPost.RulesDocno | src/ocr_service/documents/address_card/postprocess.py:64-87 | The later rules keep the document number stored first |
| AddressCardPost.PostprocessDocno | src/ocr_service/documents/address_card/postprocess.py:56-87 | The stored document number is the canonical form of the normalised input value: canonical or None |
| AddressCardPost.RulesReportingTime | src/ocr_service/documents/address_card/postprocess.py:67-68 | The permanent reporting time is cleared when the address is foreign, and kept otherwise |
| AddressCardPost.ForeignClearsReportingTime | src/ocr_service/documents/address_card/postprocess.py:56-87 | A foreign permanent address leaves None as the permanent reporting time; otherwise that field is only normalised |
| AddressCardPost.RulesOrder | src/ocr_service/documents/address_card/postprocess.py:71-79 | Both temporary dates are cleared when the order is broken and kept otherwise |
| AddressCardPost.TemporaryOrder | src/ocr_service/documents/address_card/postprocess.py:56-87 | With a temporary address and both dates present, the dates are kept when the reporting time comes first and both cleared otherwise; in every other case both are only normalised |
| AddressCardPost.TemporaryInOrder | src/ocr_service/documents/address_card/postprocess.py:71-79 | After post-processing, a temporary address with both temporary dates present has the reporting time before the validity |
| AddressCardPost.RulesBirthPlace | src/ocr_service/documents/address_card/postprocess.py:82-85 | The birth place is cleared on a foreign address naming Hungary as birth place, and kept otherwise |
| AddressCardPost.HungaryBirthPlace | src/ocr_service/documents/address_card/postprocess.py:56-87 | A foreign permanent address together with a birth place naming Hungary leaves None as birth place; otherwise the birth place is only normalised |
| AddressCardPost.RulesOthers | src/ocr_service/documents/address_card/postprocess.py:63-87 | The rules change no key other than the five they name |
| AddressCardPost.OthersNormalized | src/ocr_service/documents/address_card/postprocess.py:56-87 | Every other field is only whitespace-normalised, empty becoming None |
| AddressCardProcessor.Fill | src/ocr_service/documents/address_card/processor.py:20-42 | `schema.empty()` filled and projected onto `FIELDS`: exactly the schema keys |
| AddressCardProcessor.FillPersonal | src/ocr_service/documents/address_card/processor.py:22-29 | The document number, name, birth place and mother's name hold their extractors' values |
| AddressCardProcessor.FillAddresses | src/ocr_service/documents/address_card/processor.py:31-36 | The two address blocks hold their extractors' values |
| AddressCardProcessor.FillDates | src/ocr_service/documents/address_card/processor.py:25-40 | The birth date, validity, authority and issue date hold their extractors' values |
| AddressCardProcessor.AddressCardFields | src/ocr_service/documents/address_card/processor.py:16-42 | Exactly the twelve schema keys |
| AddressCardProcessor.StoredDates | src/ocr_service/documents/address_card/processor.py:25-40 | The stored birth date, validity and issue date are each None or an ISO date |
| AddressCardProcessor.StoredReportingTimes | src/ocr_service/documents/address_card/processor.py:32-35 | The stored reporting times are each None or an ISO date |
| AddressCardProcessor.StoredDocumentNumber | src/ocr_service/documents/address_card/processor.py:22 | The stored document number is None or of the "DDDDDD LL" document-number shape, upper case |
| AddressCardProcessor.FillNothing | src/ocr_service/documents/address_card/processor.py:20-42 | An extraction that found nothing leaves every key None |
| AddressCardProcessor.EmptyTextFields | src/ocr_service/documents/address_card/processor.py:16-42 | Empty OCR text leaves every field None |
| DrivingLicense.NormalizeDlLabelIsFilter | src/ocr_service/documents/driving_license/extract.py:10-20 | The four passes of `_normalize_dl_label` come to one: lower-case, then drop parentheses, dots and whitespace |
| DrivingLicense.NormalizeDlLabelShape | src/ocr_service/documents/driving_license/extract.py:10-20 | A normalised label has no upper-case letter, no parenthesis, no dot and no whitespace |
| DrivingLicense.NormalizeDlLabelIdempotent | src/ocr_service/documents/driving_license/extract.py:10-20 | Normalising a normalised label changes nothing |
| DrivingLicense.NormalizeDlLabelIgnoresJunk | src/ocr_service/documents/driving_license/extract.py:11-15 | A parenthesis, dot or whitespace anywhere in a label does not change it, so "4(a)", "4. a" and "4a" are one label |
| DrivingLicense.NormalizeDlLabelIgnoresCase | src/ocr_service/documents/driving_license/extract.py:11-16 | Texts equal up to case give the same label, so "4A" is "4a" |
| DrivingLicense.Candidates | src/ocr_service/documents/driving_license/extract.py:40-50 | One candidate pair per anchor match, in match order |
| DrivingLicense.CandidatesShape | src/ocr_service/documents/driving_license/extract.py:40-50 | Candidate labels are normalised and candidate values whitespace-collapsed |
| DrivingLicense.Valued | src/ocr_service/documents/driving_license/extract.py:52-53 | At most `n` pairs, none with an empty value |
| DrivingLicense.ValuedMembers | src/ocr_service/documents/driving_license/extract.py:52-53 | A pair is kept exactly when it is one of the first `n` and its value is non-empty |
| DrivingLicense.ValuedTidy | src/ocr_service/documents/driving_license/extract.py:40-55 | The kept pairs have normalised labels and non-empty collapsed values trimmed of the separators |
| DrivingLicense.AnchorPairsShape | src/ocr_service/documents/driving_license/extract.py:23-55 | Every pair of a line has a normalised label and a tidy value |
| DrivingLicense.ValuedAll | src/ocr_service/documents/driving_license/extract.py:52-53 | When no value is empty every pair is kept, in order |
| DrivingLicense.ValuedPrefix | src/ocr_service/documents/driving_license/extract.py:40-53 | Order is kept: the pairs kept from a prefix of the matches begin the pairs kept from all of them |
| DrivingLicense.PairAt | src/ocr_service/documents/driving_license/extract.py:41-50 | The method returns the normalised label of match `i` and its value up to the next match, trimmed and collapsed |
| DrivingLicense.PairsOfMatches | src/ocr_service/documents/driving_license/extract.py:39-55 | The `enumerate(matches)` loop leaves exactly the non-empty candidate pairs in match order |
| DrivingLicense.AnchorPairs | src/ocr_service/documents/driving_license/extract.py:23-55 | The method returns exactly the pairs of the normalised line, none for an empty line or a line without anchors |
| DrivingLicense.KvGet | src/ocr_service/documents/driving_license/extract.py:78 | `kv.get(k)` is present exactly when the label is in the table, and then holds its value |
| DrivingLicense.SetDefaultsFirst | src/ocr_service/documents/driving_license/extract.py:65-66 | `setdefault` never replaces a value: a label already present keeps it, and another takes the value of its first pair |
| DrivingLicense.SetDefaultsAppend | src/ocr_service/documents/driving_license/extract.py:64-66 | Setting defaults from two runs of pairs is setting them from the joined run |
| DrivingLicense.CollectFromAll | src/ocr_service/documents/driving_license/extract.py:64-66 | Going line by line is going through all the lines' pairs at once |
| DrivingLicense.CollectKvFirstSeen | src/ocr_service/documents/driving_license/extract.py:58-68 | `collect_kv` keeps the first-seen value per label: a label read across the lines in order holds the value of its first pair |
| DrivingLicense.SetDefaultsTidy | src/ocr_service/documents/driving_license/extract.py:65-66 | Tidy pairs set into a tidy table leave it tidy |
| DrivingLicense.CollectFromTidy | src/ocr_service/documents/driving_license/extract.py:64-66 | Collecting the lines' pairs into a tidy table leaves it tidy |
| DrivingLicense.CollectKvTidy | src/ocr_service/documents/driving_license/extract.py:58-68 | Every label of the table is normalised and every value is non-empty and whitespace-collapsed |
| DrivingLicense.SetDefaultsLoop | src/ocr_service/documents/driving_license/extract.py:65-66 | The inner `setdefault` loop leaves exactly the table with the defaults set |
| DrivingLicense.CollectKv | src/ocr_service/documents/driving_license/extract.py:58-68 | The method returns exactly the first-seen table of the text |
| DrivingLicense.FullNameSpec | src/ocr_service/documents/driving_license/extract.py:71-84 | On a tidy table the name is present exactly when fields 1 and 2 both are, and it is then the surname, one space and the given names |
| DrivingLicense.PlaceTokens | src/ocr_service/documents/driving_license/extract.py:106-111 | No more tokens than given |
| DrivingLicense.PlaceTokensMembers | src/ocr_service/documents/driving_license/extract.py:108-111 | A token is kept exactly when it is not date-like: it holds no digit or none of the separators `.`, `-`, `/` |
| DrivingLicense.KeepPlaceTokens | src/ocr_service/documents/driving_license/extract.py:106-111 | The loop over the tokens leaves exactly the place tokens, in order |
| DrivingLicense.ExtractBirthDateAndPlace | src/ocr_service/documents/driving_license/extract.py:88-114 | The method returns exactly the birth date and birth place of field 3 |
| DrivingLicense.PlaceTokensAreTokens | src/ocr_service/documents/driving_license/extract.py:106-113 | The kept tokens are tokens: non-empty and free of whitespace |
| DrivingLicense.BirthDateSpec | src/ocr_service/documents/driving_license/extract.py:88-102 | No field 3 gives nothing; a field 3 without a date is the place as it stands; a field with dates gives its earliest date |
| DrivingLicense.BirthPlaceSpec | src/ocr_service/documents/driving_license/extract.py:104-114 | With a date in field 3 the place is present exactly when some token is not date-like, and its words are exactly those tokens, in order |
| DrivingLicense.FirstDateSpec | src/ocr_service/documents/driving_license/extract.py:117-136 | The date of field 4a or 4b is None exactly when the field is missing or has no date, and otherwise the earliest of its dates, an ISO date |
| DrivingLicense.LicenceNumberSpec | src/ocr_service/documents/driving_license/extract.py:146-154 | `raw.split()[0]` raises exactly on a non-empty blank field 5, which a tidy table never holds; a number found has no whitespace and no `.,;:` at either end |
| DrivingLicense.LicenceNumberPlain | src/ocr_service/documents/driving_license/extract.py:153-154 | A first token without surrounding punctuation is the number as it stands |
| DrivingLicense.Assigned | src/ocr_service/documents/driving_license/processor.py:23-33 | The seven assignments set exactly the seven keys the processor names |
| DrivingLicense.Fill | src/ocr_service/documents/driving_license/processor.py:19-35 | `schema.empty()` after the assignments, projected onto the schema keys: exactly those keys |
| DrivingLicense.FillBirth | src/ocr_service/documents/driving_license/processor.py:19-35 | A key the processor leaves alone is None; name, birth date and birth place hold their values |
| DrivingLicense.FillIssue | src/ocr_service/documents/driving_license/processor.py:29-33 | The issue and expiry dates, the authority and the number hold their values |
| DrivingLicense.DrivingLicenseFields | src/ocr_service/documents/driving_license/processor.py:16-35 | A record returned has exactly the schema keys |
| DrivingLicense.DrivingLicenseNeverRaises | src/ocr_service/documents/driving_license/processor.py:16-35 | The processor never raises: the table it builds has no blank value for `split()[0]` to fail on |
| DrivingLicense.DrivingLicenseStored | src/ocr_service/documents/driving_license/processor.py:19-33 | Unfilled keys are None, the birth date and place are the two halves of one reading of field 3, and the document number is the licence number |
| DrivingLicense.DrivingLicenseName | src/ocr_service/documents/driving_license/processor.py:21-23 | The stored name is the surname and given names of the first fields 1 and 2 of the text, None unless both appear |
| DrivingLicense.DrivingLicenseIssue | src/ocr_service/documents/driving_license/processor.py:29-32 | The stored issue and expiry dates are the earliest dates of fields 4a and 4b, and the authority is field 4c as it stands |
| IdBack.Stops | src/ocr_service/documents/id_back/extract.py:15 | `STOP_LABELS` holds the four label patterns |
| IdBack.UnguardedIsNextLine | src/ocr_service/documents/id_back/extract.py:10-20 | The birth place and the mother's name are the line after their first label line, when there is one |
| IdBack.GuardedReads | src/ocr_service/documents/id_back/extract.py:14-25 | The birth name and the origin place are the next-line reads unless those are stop labels, and so never hold one |
| IdBack.Fill | src/ocr_service/documents/id_back/processor.py:19-28 | `schema.empty()` filled and projected onto `FIELDS`: exactly the five schema keys |
| IdBack.FillValues | src/ocr_service/documents/id_back/processor.py:22-26 | Each of the five keys holds its extractor's value |
| IdBack.IdBackFields | src/ocr_service/documents/id_back/processor.py:17-28 | Exactly the five schema keys |
| IdBack.IdBackStoredLines | src/ocr_service/documents/id_back/processor.py:17-28 | The guarded fields never hold a stop label, and the stored values are the next-line reads of the normalised lines |
| IdBack.IdBackStoredAuthority | src/ocr_service/documents/id_back/extract.py:28-29 | The stored issuing authority is the inline search of the raw text |
| IdBack.IdBackFieldsEmpty | src/ocr_service/documents/id_back/processor.py:17-28 | Empty OCR text leaves every field None when the patterns find nothing in an empty text |
| IdFront.FirstToken | src/ocr_service/documents/id_front/extract.py:16-20 | None for a missing or empty value; a token is non-empty, holds no whitespace and has no `.,;:` at either end |
| IdFront.FullNameIsNextLine | src/ocr_service/documents/id_front/extract.py:23-25 | The name is the line after the first name label line, a normalised line |
| IdFront.ExtractSex | src/ocr_service/documents/id_front/extract.py:28-38 | "NŐ", "FÉRFI" or None; the inline value when there is one, and None when neither the inline value nor the token is found |
| IdFront.NationalityUpper | src/ocr_service/documents/id_front/extract.py:41-53 | A nationality is upper case; an inline value with a token decides it, and the token match is used otherwise |
| IdFront.BirthAndExpiryOf | src/ocr_service/documents/id_front/extract.py:56-68 | No birth date exactly when there are no dates, no expiry exactly when there is at most one; birth first and expiry last |
| IdFront.BirthAndExpiryOrder | src/ocr_service/documents/id_front/extract.py:56-68 | Both are ISO dates of the text, and an expiry date is only stored beside an earlier birth date |
| IdFront.DateDerivedIff | src/ocr_service/documents/id_front/extract.py:71-82 | A number is date-derived exactly when it is non-empty and its first six characters are the DDMMYY of the birth or the expiry date |
| IdFront.AcceptNumber | src/ocr_service/documents/id_front/extract.py:99-112 | A candidate is accepted exactly when it normalises and is not date-derived, and then as its normalised form |
| IdFront.ScanCandidates | src/ocr_service/documents/id_front/extract.py:103-114 | A number found is canonical, not date-derived and the first accepted candidate; None exactly when no candidate is accepted |
| IdFront.InlineNumber | src/ocr_service/documents/id_front/extract.py:95-101 | A number from the inline token is canonical and not date-derived |
| IdFront.ExtractDocumentNumberOf | src/ocr_service/documents/id_front/extract.py:85-114 | A stored number is canonical and not date-derived |
| IdFront.AcceptCandidate | src/ocr_service/documents/id_front/extract.py:106-112 | One candidate step returns exactly `AcceptNumber` |
| IdFront.ScanCandidateMatches | src/ocr_service/documents/id_front/extract.py:105-114 | The `finditer` loop returns exactly the first accepted candidate |
| IdFront.ExtractDocumentNumber | src/ocr_service/documents/id_front/extract.py:85-114 | The method returns exactly the inline number, else the first accepted candidate of the collapsed text |
| IdFront.DocumentNumberPrecedence | src/ocr_service/documents/id_front/extract.py:85-114 | An accepted inline number wins; otherwise the number is the scan's, None exactly when no candidate is accepted |
| IdFront.Assigned | src/ocr_service/documents/id_front/processor.py:16-26 | The six assignments set exactly the six keys the processor names |
| IdFront.Fill | src/ocr_service/documents/id_front/processor.py:16-32 | `schema.empty()` after the assignments, projected onto the schema keys: exactly those keys |
| IdFront.FillValues | src/ocr_service/documents/id_front/processor.py:16-32 | Keys left alone are None, and each assigned key holds its step's value |
| IdFront.ExtractAll | src/ocr_service/documents/id_front/processor.py:22-30 | The dates are the birth and expiry of the text, and the number is computed from those dates |
| IdFront.IdFrontFields | src/ocr_service/documents/id_front/processor.py:14-32 | Exactly the schema keys |
| IdFront.IdFrontStoredText | src/ocr_service/documents/id_front/processor.py:18-20 | Keys left alone are None, and the name, sex and nationality are their extractors' results on the same text |
| IdFront.IdFrontFieldsConsistent | src/ocr_service/documents/id_front/processor.py:14-32 | The stored number is canonical and not derived from the stored dates, and an expiry date is stored only after an earlier birth date |
| IdOldBack.Stops | src/ocr_service/documents/id_old_back/extract.py:23 | `STOP_LABELS` holds the five bare labels |
| IdOldBack.GetValueSpec | src/ocr_service/documents/id_old_back/extract.py:11-24 | The inline value wins; a value is never empty; a next-line value is used only without an inline one and never holds a stop label |
| IdOldBack.BirthDateEarliest | src/ocr_service/documents/id_old_back/extract.py:35-40 | None exactly when no value is located or it has no date; otherwise an ISO date no later than the value's other dates |
| IdOldBack.ExtractSex | src/ocr_service/documents/id_old_back/extract.py:47-49 | "NŐ", "FÉRFI" or None, and None when no value is located |
| IdOldBack.NationalityRaises | src/ocr_service/documents/id_old_back/extract.py:57-61 | As written, the steps raise exactly when the stripped value has a '/' with nothing but whitespace after the last one |
| IdOldBack.NationalityTrailingSlash | src/ocr_service/documents/id_old_back/extract.py:58-60 | As written, the value "HUN/" raises `IndexError` at `split()[0]` |
| IdOldBack.NationalityOfValue | src/ocr_service/documents/id_old_back/extract.py:57-61 | Corrected, a nationality is a non-empty upper-case token without whitespace |
| IdOldBack.ExtractNationality | src/ocr_service/documents/id_old_back/extract.py:52-61 | No inline value gives None |
| IdOldBack.NationalityCorrects | src/ocr_service/documents/id_old_back/extract.py:52-61 | The corrected extractor agrees with the code wherever the code returns, and gives None where it raises |
| IdOldBack.CutBefore | src/ocr_service/documents/id_old_back/extract.py:76-78 | The cut text is its own strip |
| IdOldBack.NoOccurrenceInPiece | src/ocr_service/documents/id_old_back/extract.py:76-78 | A piece of the text ending before the first occurrence of the year does not contain it |
| IdOldBack.CutBeforeNoYear | src/ocr_service/documents/id_old_back/extract.py:73-78 | The cut text does not contain the year it was cut at |
| IdOldBack.AuthorityOfValue | src/ocr_service/documents/id_old_back/extract.py:69-80 | An authority is non-empty and stripped |
| IdOldBack.ExtractIssuingAuthority | src/ocr_service/documents/id_old_back/extract.py:64-80 | No inline value gives None |
| IdOldBack.AuthorityCut | src/ocr_service/documents/id_old_back/extract.py:69-80 | A value without a date is kept whole once stripped; with a date whose year occurs, the authority is the text before that year and holds no occurrence of it |
| IdOldBack.Fill | src/ocr_service/documents/id_old_back/processor.py:17-27 | `schema.empty()` filled and projected onto `FIELDS`: exactly the seven keys |
| IdOldBack.FillValues | src/ocr_service/documents/id_old_back/processor.py:19-25 | Each schema key holds its own extractor's value |
| IdOldBack.OldBackFields | src/ocr_service/documents/id_old_back/processor.py:15-27 | The processor raises `IndexError` exactly when the as-written nationality step does, and otherwise returns exactly the seven keys |
| IdOldBack.OldBackRaises | src/ocr_service/documents/id_old_back/processor.py:15-27 | The processor raises exactly when the inline nationality value has a '/' with only whitespace after the last one |
| IdOldBack.StoredBirthDate | src/ocr_service/documents/id_old_back/processor.py:21 | When the processor returns, the stored birth date is the extractor's: None or an ISO date |
| IdOldBack.StoredSex | src/ocr_service/documents/id_old_back/processor.py:22 | When the processor returns, the stored sex is the extractor's: "NŐ", "FÉRFI" or None |
| IdOldBack.StoredNationality | src/ocr_service/documents/id_old_back/processor.py:23 | When the processor returns, the stored nationality is the corrected extractor's, in upper case |
| IdOldFront.FullNameIsNextLine | src/ocr_service/documents/id_old_front/extract.py:10-15 | The name is the line after the first name-label line of the normalised lines, a clean line |
| IdOldFront.ExpiryIsLatest | src/ocr_service/documents/id_old_front/extract.py:18-23 | None exactly when the text has no date; otherwise the latest of its dates, an ISO date |
| IdOldFront.DocumentNumberSpec | src/ocr_service/documents/id_old_front/extract.py:26-49 | A number is canonical and fixed by normalisation; the inline number wins, else the first candidate that normalises, None when none does |
| IdOldFront.ScanCandidateMatches | src/ocr_service/documents/id_old_front/extract.py:43-47 | The `finditer` loop returns exactly the first candidate that normalises |
| IdOldFront.ExtractDocumentNumber | src/ocr_service/documents/id_old_front/extract.py:26-49 | The method returns exactly the inline number, else the scan's |
| IdOldFront.Fill | src/ocr_service/documents/id_old_front/processor.py:17-23 | `schema.empty()` filled and projected onto `FIELDS`: exactly the three keys |
| IdOldFront.FillValues | src/ocr_service/documents/id_old_front/processor.py:19-21 | Each key holds its extractor's value |
| IdOldFront.OldFrontFields | src/ocr_service/documents/id_old_front/processor.py:15-23 | Exactly the three schema keys |
| IdOldFront.OldFrontFieldsShape | src/ocr_service/documents/id_old_front/processor.py:15-23 | The name is the next-line read, the expiry date is ISO, and the number canonical |
| IdOldFront.OldFrontFieldsEmpty | src/ocr_service/documents/id_old_front/processor.py:15-23 | Empty OCR text leaves every field None when the patterns find nothing in an empty text |
| LegacyIdBack.Stops | src/ocr_service/documents/processors/id_back.py:20-25 | The four stop labels are those the later extractor lists |
| LegacyIdBack.ExtractAll | src/ocr_service/documents/processors/id_back.py:28-36 | The next-line reads of `split_lines(text)`, the birth name and origin place guarded by the stop labels, the authority inline on the raw text |
| LegacyIdBack.IdBackFields | src/ocr_service/documents/processors/id_back.py:19-43 | Exactly the five schema keys |
| LegacyIdBack.IdBackStoredLines | src/ocr_service/documents/processors/id_back.py:28-31 | The guarded fields are the unguarded reads unless those match a stop label, and never hold one; the others are stored as read |
| LegacyIdBack.IdBackAuthorityAgrees | src/ocr_service/documents/processors/id_back.py:34-36 | The stored authority is the one the later extractor finds with the same pattern |
| LegacyIdBack.IdBackFieldsEmpty | src/ocr_service/documents/processors/id_back.py:19-43 | Empty OCR text leaves every field None when the patterns find nothing in an empty text |
| LegacyIdFront.ExtractFullName | src/ocr_service/documents/processors/id_front.py:28-34 | None without a name-label line or when it is the last line; otherwise the line right after the first label line of `split_lines(text)`, markdown stripped |
| LegacyIdFront.ExtractSex | src/ocr_service/documents/processors/id_front.py:36-41 | "NŐ", "FÉRFI" or None; the inline value's canonical form when there is one, None when neither the inline value nor the token is found |
| LegacyIdFront.NationalityOf | src/ocr_service/documents/processors/id_front.py:43-50 | A nationality is upper case; an inline value always decides it, even to "", and the token match is used only without one |
| LegacyIdFront.NationalityGenerations | src/ocr_service/documents/processors/id_front.py:43-50 | With a non-empty inline token both generations agree; with an empty one this one stores "" where the later one uses the token match |
| LegacyIdFront.BirthAndExpiryOrder | src/ocr_service/documents/processors/id_front.py:52-57 | No birth date exactly when there are no dates, no expiry with fewer than two; birth first, expiry last, both ISO, the expiry later |
| LegacyIdFront.InlineNumber | src/ocr_service/documents/processors/id_front.py:68-72 | A number from the inline token is canonical and the normalised token itself |
| LegacyIdFront.Compact | src/ocr_service/documents/processors/id_front.py:77 | `text.replace(" ", "")` is no longer than the text and holds no space |
| LegacyIdFront.ExtractDocumentNumberOf | src/ocr_service/documents/processors/id_front.py:67-92 | A number is canonical; the inline number when there is one, else the first accepted candidate of the compacted text |
| LegacyIdFront.ExtractDocumentNumber | src/ocr_service/documents/processors/id_front.py:67-92 | The method returns exactly the inline number, else the candidate loop's |
| LegacyIdFront.DocumentNumberPrecedence | src/ocr_service/documents/processors/id_front.py:67-92 | A number not from the inline value is not derived from the dates; None exactly when no inline number and no accepted candidate |
| LegacyIdFront.FillFields | src/ocr_service/documents/processors/id_front.py:31-94 | `document_type` is None and each other key holds its step's value |
| LegacyIdFront.ExtractAll | src/ocr_service/documents/processors/id_front.py:52-92 | The dates are the birth and expiry of the text, and the number is computed from them |
| LegacyIdFront.IdFrontFields | src/ocr_service/documents/processors/id_front.py:27-94 | Exactly the seven schema keys |
| LegacyIdFront.IdFrontStoredText | src/ocr_service/documents/processors/id_front.py:31-50 | `document_type` is None and the name, sex and nationality are their steps' results |
| LegacyIdFront.IdFrontFieldsConsistent | src/ocr_service/documents/processors/id_front.py:27-94 | The number is canonical and, unless inline, not derived from the stored dates; an expiry date follows an earlier birth date |
| Imports.Steps | src/ocr_service/documents/registry.py:8-15 | Each import statement loads only modules deeper down the chain |
| Imports.FirstMissing | src/ocr_service/documents/id_old_front/extract.py:5 | None exactly when every name asked for is bound; otherwise one of them that is not |
| Imports.NamesOf | src/ocr_service/documents/id_old_front/extract.py:5 | The names a statement asks for, as a set |
| Imports.StepsNeedUnit | src/ocr_service/documents/registry.py:8-15 | The statements of each module need exactly the helpers the chain to normalize.py lists |
| Imports.RunIff | src/ocr_service/documents/registry.py:8-15 | Running statements succeeds exactly when every helper they need is bound |
| Imports.LoadIff | src/ocr_service/documents/registry.py:8-15 | A module loads exactly when every helper on its chain is bound |
| Imports.FirstStepFails | src/ocr_service/documents/registry.py:8-15 | A module whose first statement fails raises that statement's error |
| Imports.IdOldFrontExtractFails | src/ocr_service/documents/id_old_front/extract.py:5 | `id_old_front/extract.py` asks for `normalize_id_number`, which normalize.py does not define, and raises `ImportError` |
| Imports.ServiceImportFails | src/ocr_service/pipeline/service.py:6 | As written, the earlier ID front processor, the registry and the service all raise `ImportError` for `normalize_id_number` |
| Imports.PostprocessImportFails | src/ocr_service/documents/registration/postprocess.py:5 | The two post-processors raise `ImportError`, for `empty_to_none` and `norm_ws`; the registration processor inherits the failure |
| Imports.AddressProcessorLoads | src/ocr_service/documents/address_card/processor.py:1-8 | The address-card processor does not import its post-processor and loads as written |
| Imports.AllLoadWithHelpers | src/ocr_service/documents/registry.py:8-15 | With the missing helpers defined, every module on the chains loads |
| Passport.Stops | src/ocr_service/documents/passport/rules.py:82-95 | `STOP_LABELS` holds the twelve label patterns |
| Passport.CountryFrom | src/ocr_service/documents/passport/rules.py:70 | The least position at or after `p` where a three-letter word stands; None exactly when there is none |
| Passport.CountryCodeValue | src/ocr_service/documents/passport/rules.py:70 | `COUNTRY_CODE_VALUE.search`: None exactly when no three-letter word stands in the text; a match's `value` group is three upper-case ASCII letters |
| Passport.AlnumClean | src/ocr_service/documents/passport/extract.py:98 | A run of letters and digits is its own `normalize_ocr_line` |
| Passport.AlnumRun | src/ocr_service/documents/passport/rules.py:73 | The run at `p` is all ASCII letters and digits and ends at the end of the text or before a character that is not one |
| Passport.DocumentNumberFrom | src/ocr_service/documents/passport/rules.py:72-75 | The least position at or after `p` where `DOCUMENT_NUMBER_VALUE` matches; None exactly when there is none |
| Passport.DocumentNumberValue | src/ocr_service/documents/passport/rules.py:72-75 | None exactly when the pattern matches nowhere; a match has its `value` group |
| Passport.FullMatchIsSearch | src/ocr_service/documents/passport/extract.py:106 | A line of the document-number shape is a `fullmatch` of the pattern, its `value` group the whole line |
| Passport.StripDatesOf | src/ocr_service/documents/passport/extract.py:20-30 | The stripped text is whitespace-collapsed and has no markdown decoration at its ends |
| Passport.StripDatesFromText | src/ocr_service/documents/passport/extract.py:20-30 | The method returns exactly `StripDatesOf(s)` |
| Passport.ReplaceDates | src/ocr_service/documents/passport/extract.py:27-29 | The replacement loop leaves exactly the text with each date's ISO and dotted spellings replaced by spaces |
| Passport.RemoveDatesKeepsFree | src/ocr_service/documents/passport/extract.py:27-29 | Replacing pieces by spaces never creates an occurrence of a space-free string |
| Passport.RemoveDatesFree | src/ocr_service/documents/passport/extract.py:27-29 | After the loop none of the dates is left in its ISO or dotted spelling |
| Passport.DatesRemovedFree | src/ocr_service/documents/passport/extract.py:20-30 | None of the text's dates survives the stripping in ISO or dotted spelling |
| Passport.Picked | src/ocr_service/documents/passport/extract.py:63-66 | A value picked from a match is a clean line |
| Passport.SameLineValue | src/ocr_service/documents/passport/extract.py:57-66 | A same-line value is a clean line, and needs a ':' after the label and no '/' in the label line |
| Passport.NextLineValue | src/ocr_service/documents/passport/extract.py:68-78 | A next-line value is a clean line, read from a next non-empty line that is not a stop label |
| Passport.LabelRead | src/ocr_service/documents/passport/extract.py:46-81 | A label value is a clean line |
| Passport.LabelValue | src/ocr_service/documents/passport/extract.py:33-87 | A value is a clean line |
| Passport.LabelValueUnstripped | src/ocr_service/documents/passport/extract.py:83-87 | Without `strip_dates` the value is the raw read |
| Passport.LabelValueSources | src/ocr_service/documents/passport/extract.py:46-81 | None without a label line; otherwise the same-line value when there is one, else the next-line value |
| Passport.LabelValueKeeps | src/ocr_service/documents/passport/extract.py:60-78 | A value read through a value pattern whose values all have a property has that property |
| Passport.LabelValueStripped | src/ocr_service/documents/passport/extract.py:83-85 | With `strip_dates` the value is the raw read with its dates stripped, None when nothing is left |
| Passport.Head | src/ocr_service/documents/passport/extract.py:95 | `lines[:n]`: a prefix of the lines no longer than `n`, all of them when they are fewer |
| Passport.FirstLine | src/ocr_service/documents/passport/extract.py:103-109 | The least index at or after `from` whose line passes the test; None exactly when none does |
| Passport.FirstCountryCodeSpec | src/ocr_service/documents/passport/extract.py:94-99 | None exactly when none of the first thirty lines holds a country code; otherwise three upper-case letters |
| Passport.FindFirstCountryCode | src/ocr_service/documents/passport/extract.py:94-99 | The loop returns exactly `FirstCountryCode` |
| Passport.DocumentNumberByValueSpec | src/ocr_service/documents/passport/extract.py:102-109 | The first whole line that has the document-number shape and is not an MRZ line, unchanged; None when there is none |
| Passport.FindDocumentNumberByValue | src/ocr_service/documents/passport/extract.py:102-109 | The loop returns exactly `DocumentNumberByValue` |
| Passport.TypeLineIdx | src/ocr_service/documents/passport/extract.py:112-116 | 0 or an index of a line |
| Passport.TypeLineSpec | src/ocr_service/documents/passport/extract.py:112-116 | The first of the first forty lines holding a country code; 0 when none of them does |
| Passport.FindTypeLineIdx | src/ocr_service/documents/passport/extract.py:112-116 | The loop returns exactly `TypeLineIdx` |
| Passport.NationalityCandidate | src/ocr_service/documents/passport/extract.py:143 | A nationality line with `#` stripped and normalised is collapsed and free of decoration |
| Passport.Window | src/ocr_service/documents/passport/extract.py:139 | At most thirty lines, those starting at the type line |
| Passport.FindNameByOrder | src/ocr_service/documents/passport/extract.py:119-159 | The method returns exactly the positional scan's four values |
| Passport.WindowIs | src/ocr_service/documents/passport/extract.py:139 | `lines[start : min(len(lines), start + 30)]` is the window |
| Passport.ScanByOrder | src/ocr_service/documents/passport/extract.py:139-159 | The loop over the window leaves exactly `OrderOf` of the window |
| Passport.OrderSpec | src/ocr_service/documents/passport/extract.py:139-159 | The surname is a one-word letters-only line, the given names a letters-only line found after it, the birth name a letters-only line without '/' found after both, and the nationality non-empty |
| Passport.OrderKeeps | src/ocr_service/documents/passport/extract.py:139-159 | The first value found for each of the four is kept: scanning more lines never changes a value already found |
| Passport.PlaceRestAsWrittenHitsEarlier | src/ocr_service/documents/passport/extract.py:170 | As written, when the matched text occurs before the match, `replace(m.group(0), " ", 1)` blanks that earlier occurrence |
| Passport.PlaceRestMiskolc | src/ocr_service/documents/passport/extract.py:170 | As written, on "MISKOLC M" with the sex token "M" at the end, the rest is " ISKOLC M": the place loses its first letter and keeps the token |
| Passport.SplicedKeepsContext | src/ocr_service/documents/passport/extract.py:170 | Corrected, replacing the match itself by one space keeps the text before and after the match unchanged |
| Passport.PlaceRestAgrees | src/ocr_service/documents/passport/extract.py:170 | When the first occurrence of the matched text is the match itself, the written and the corrected rest agree |
| Passport.ReplaceAtMatch | src/ocr_service/documents/passport/extract.py:170 | Replacing the first occurrence, at `a` to `b`, by one space is splicing the space there |
| Passport.SexAndPlace | src/ocr_service/documents/passport/extract.py:162-173 | The sex is "NŐ", "FÉRFI" or None |
| Passport.FindSexAndBirthPlace | src/ocr_service/documents/passport/extract.py:162-173 | The loop returns exactly the sex and place of the first line with a sex token |
| Passport.DatePolicy | src/ocr_service/documents/passport/extract.py:176-190 | On ascending dates: birth is the smallest, issue the second smallest, expiry the largest; birth and expiry None only without dates, issue only with fewer than two; birth < issue <= expiry |
| Passport.PickedCountryCode | src/ocr_service/documents/passport/extract.py:197-199 | A country code picked from a match is three upper-case letters |
| Passport.CountryCodeSpec | src/ocr_service/documents/passport/extract.py:197-199 | The code is three upper-case letters, from the label when it yields one and from the first thirty lines otherwise |
| Passport.PickedDocumentNumber | src/ocr_service/documents/passport/extract.py:202-204 | A number picked from a match is 5 to 12 ASCII letters and digits |
| Passport.RunToken | src/ocr_service/documents/passport/rules.py:73 | A matched run is 5 to 12 ASCII letters and digits |
| Passport.DocumentNumberSpec | src/ocr_service/documents/passport/extract.py:202-204 | The number is 5 to 12 letters and digits; without a label value it is the first whole line of that shape that is not an MRZ line |
| Passport.CleanJoin | src/ocr_service/documents/passport/extract.py:227 | Two clean lines joined by a space are a clean line |
| Passport.OrderNamesClean | src/ocr_service/documents/passport/extract.py:146-152 | On normalised lines the positional surname and given names are clean lines |
| Passport.JoinNamesClean | src/ocr_service/documents/passport/extract.py:226-228 | On clean names, both give surname, space, given names; one missing gives the other |
| Passport.FullNameJoin | src/ocr_service/documents/passport/extract.py:223-228 | On normalised lines the full name is surname, one space, given names when both are found, and whichever is found otherwise |
| Passport.BirthNameFallback | src/ocr_service/documents/passport/extract.py:231-243 | Without a label value a birth name comes only from the positional scan and only when neither name label occurs; it is then letters only, without '/' |
| Passport.NationalitySpec | src/ocr_service/documents/passport/extract.py:246-259 | A plausible label value wins, else the first line with '/' and a Hungarian mark, else the positional scan's value; the last alternative of the code never applies |
| Passport.ScanNationalityLines | src/ocr_service/documents/passport/extract.py:252-256 | The loop finds a line exactly when some line qualifies, and returns the first one's normalised value |
| Passport.ExtractNationality | src/ocr_service/documents/passport/extract.py:246-259 | The method returns exactly `ExtractNationalityOf` |
| Passport.ExtractSex | src/ocr_service/documents/passport/extract.py:262-267 | "NŐ", "FÉRFI" or None |
| Passport.JoinSpaceNormal | src/ocr_service/documents/passport/extract.py:275-276 | Tokens joined by single spaces are their own `normalize_ocr_line` and strip |
| Passport.DropSexWordNormal | src/ocr_service/documents/passport/extract.py:273-276 | A leading sex token is dropped and the rest kept in order; a value without one is kept |
| Passport.BirthPlaceWords | src/ocr_service/documents/passport/extract.py:270-279 | A label birth place loses a leading sex token and keeps its other words in order, single-spaced; None when no word is left |
| Passport.Fill | src/ocr_service/documents/passport/processor.py:19-36 | `schema.empty()` filled and projected onto `FIELDS`: exactly the schema keys |
| Passport.FillIdentity | src/ocr_service/documents/passport/processor.py:21-29 | The country code, number, nationality and sex hold their extractors' values |
| Passport.FillNames | src/ocr_service/documents/passport/processor.py:24-33 | The names, the birth place and the authority hold their extractors' values |
| Passport.FillDates | src/ocr_service/documents/passport/processor.py:28-34 | The three dates hold the date policy's values |
| Passport.PassportFields | src/ocr_service/documents/passport/processor.py:16-36 | Exactly the schema keys |
| Passport.StoredDates | src/ocr_service/documents/passport/processor.py:28-34 | Each date is None or ISO, birth < issue <= expiry, birth and expiry None only without dates, and empty text stores none |
| Passport.StoredShapes | src/ocr_service/documents/passport/processor.py:21-29 | The stored country code, document number and sex have their shapes |
| Registration.LStripBlankPrefix | src/ocr_service/documents/registration/extract.py:19 | Stripping leading whitespace before a non-whitespace character leaves the rest of the line |
| Registration.CLabelLineIff | src/ocr_service/documents/registration/extract.py:14-27 | A line is a C-block line exactly when, after any whitespace, it starts with C or c followed by nothing, a dot, a digit or whitespace |
| Registration.BlankNotCLabelLine | src/ocr_service/documents/registration/extract.py:19-21 | A blank line is never a C-block line |
| Registration.CPrefix | src/ocr_service/documents/registration/extract.py:34-39 | A prefix of the lines free of C-block lines, ending at the end or just before a C-block line |
| Registration.CPrefixUnique | src/ocr_service/documents/registration/extract.py:34-39 | Any prefix with that property is the truncation |
| Registration.RegLinesOf | src/ocr_service/documents/registration/extract.py:30-39 | A prefix of the normalised lines |
| Registration.RegLinesClean | src/ocr_service/documents/registration/extract.py:30-39 | The truncated lines are clean normalised lines, none of them a C-block line |
| Registration.TakeUntilCLine | src/ocr_service/documents/registration/extract.py:35-38 | The loop copies exactly the lines before the first C-block line |
| Registration.RegLines | src/ocr_service/documents/registration/extract.py:30-39 | The method returns exactly the truncated normalised lines |
| Registration.LinesValue | src/ocr_service/documents/registration/extract.py:55-65 | A value read from the truncated lines is non-empty, passes the validator, holds the value pattern, and needs a label line |
| Registration.X | src/ocr_service/documents/registration/extract.py:41-65 | The lines' value when there is one; otherwise the global fallback on the whole text when a fallback pattern is given, and None when it is not |
| Registration.FirstIsoDate | src/ocr_service/documents/registration/extract.py:74-76 | A date exactly when the text mentions one, and then its earliest date, an ISO date |
| Registration.AscendingFirst | src/ocr_service/documents/registration/extract.py:76 | The first entry of a strictly ascending list is below every other entry |
| Registration.NoLeadingZeroValue | src/ocr_service/documents/registration/extract.py:68-72 | A digit string that does not start with 0 has a value of at least ten to the power of its length less one |
| Registration.PlainIntPositive | src/ocr_service/documents/registration/extract.py:68-72 | An accepted seat count is a positive number written without leading zeros |
| Registration.FirstRepeatFrom | src/ocr_service/documents/registration/extract.py:90-95 | The first index at or after `i` whose token was already seen before it; None when no such index exists |
| Registration.DocumentNumberOf | src/ocr_service/documents/registration/extract.py:78-97 | None for empty text; a number is an upper-cased two-letter five-digit token that occurs at least twice |
| Registration.TwiceCounted | src/ocr_service/documents/registration/extract.py:93-94 | A token seen again occurs at least twice |
| Registration.SecondOccurrenceSeen | src/ocr_service/documents/registration/extract.py:90-96 | A token that occurs twice is seen again at its second occurrence |
| Registration.DocumentNumberIff | src/ocr_service/documents/registration/extract.py:78-97 | A number is found exactly when some token occurs twice, and it is the token whose second occurrence comes first |
| Registration.ExtractDocumentNumber | src/ocr_service/documents/registration/extract.py:78-97 | The loop with its `seen` set returns exactly `DocumentNumberOf` |
| Registration.FallbackGroupOne | src/ocr_service/core/utils/extract.py:194-205 | When group 1 of the fallback match took part and is stripped already, the fallback returns exactly that group |
| Registration.PlainField | src/ocr_service/documents/registration/extract.py:117-126 | A value of D1, D2, D3, H, K, P5 or R is non-empty and needs a label line in the truncated lines |
| Registration.PlateWhole | src/ocr_service/documents/registration/rules.py:83-88 | A match exactly where `PLATE_VALUE` has one, with no capturing group, spanning the same text |
| Registration.ExtractAAsWritten | src/ocr_service/documents/registration/extract.py:99-105 | As written, a label value holds a plate, and without one the result is what `fallback_value` returns for `PLATE_VALUE` |
| Registration.FallbackWhole | src/ocr_service/core/utils/extract.py:194-205 | When no group of the fallback match took part and the whole match is stripped already, the fallback returns the whole match |
| Registration.AFallbackLettersOnly | src/ocr_service/documents/registration/extract.py:104 | As written, the global fallback returns only group 1, the three or four letters of the first plate, which is not a plate itself |
| Registration.AFallbackPlate | src/ocr_service/documents/registration/extract.py:104 | Corrected, the fallback returns the whole first plate of the text, a plate; nothing when the text has none |
| Registration.ExtractA | src/ocr_service/documents/registration/extract.py:99-105 | Corrected, the label value when it holds a plate, else the first whole plate of the text |
| Registration.ExtractAIsPlate | src/ocr_service/documents/registration/extract.py:99-105 | Corrected, whichever way the value is found it contains a plate |
| Registration.DateOf | src/ocr_service/documents/registration/extract.py:114 | A date exactly when the raw value is present, non-empty and mentions a date; then its earliest ISO date |
| Registration.ExtractB | src/ocr_service/documents/registration/extract.py:108-114 | A date exactly when a label value holding a date is found; then that value's earliest ISO date |
| Registration.ExtractI | src/ocr_service/documents/registration/extract.py:160-172 | An ISO date: the earliest of the I label value, else of its alias's value |
| Registration.ExtractE | src/ocr_service/documents/registration/extract.py:129-135 | A label value holding a VIN, else the first VIN of the whole text |
| Registration.VinFallback | src/ocr_service/documents/registration/extract.py:134 | The VIN fallback returns the seventeen characters of the first VIN of the text |
| Registration.ExtractEIsVin | src/ocr_service/documents/registration/extract.py:129-135 | The value always contains a VIN, and is found exactly when the label yields one or the text holds one |
| Registration.WeightField | src/ocr_service/documents/registration/extract.py:138-153 | F1 and G: a label value holding a weight in kg, with no global fallback |
| Registration.ExtractJ | src/ocr_service/documents/registration/extract.py:175-183 | A category (some letter and some digit) under the J label, else under its alias |
| Registration.ExtractP1 | src/ocr_service/documents/registration/extract.py:243-249 | A label value holding a displacement in cm3, else the fallback's reading of the first displacement in the text |
| Registration.ExtractP1Shape | src/ocr_service/documents/registration/extract.py:243-249 | The displacement is a label value with its unit, or the fallback's bare number of two to five digits; found exactly when one of them is |
| Registration.ExtractP2 | src/ocr_service/documents/registration/extract.py:252-258 | A label value holding a power in kW, else the fallback's reading of the first power in the text |
| Registration.ExtractP2Shape | src/ocr_service/documents/registration/extract.py:252-258 | The power is a label value with its unit, or the fallback's bare number of one to four digits; found exactly when one of them is |
| Registration.ExtractP3 | src/ocr_service/documents/registration/extract.py:261-267 | A label value naming a fuel, else the first fuel word of the text |
| Registration.ExtractP3IsFuel | src/ocr_service/documents/registration/extract.py:261-267 | The value always names a fuel, and is found exactly when the label yields one or the text holds one |
| Registration.ExtractQ | src/ocr_service/documents/registration/extract.py:274-284 | A label value holding a power in kW or a weight in kg, with no global fallback |
| Registration.SeatField | src/ocr_service/documents/registration/extract.py:291-304 | S1 and S2: a seat count written as a plain number without leading zeros |
| Registration.SmallNumberField | src/ocr_service/documents/registration/extract.py:307-312 | V9 and the gearbox type: a label value holding a number of one to three digits |
| Registration.ExtractManufactureYear | src/ocr_service/documents/registration/extract.py:315-320 | A label value holding a year from 1900 to 2099 |
| RegistrationPost.PrefixMended | src/ocr_service/documents/registration/postprocess.py:7-10 | A prefix-zone character, upper-cased and mended by `_DOCNO_PREFIX_FIX`, is a letter A to Z |
| RegistrationPost.SerialMended | src/ocr_service/documents/registration/postprocess.py:12-17 | A serial-zone character, upper-cased and mended by `_DOCNO_DIGIT_FIX`, is a decimal digit |
| RegistrationPost.DocnoChecksPass | src/ocr_service/documents/registration/postprocess.py:40-51 | Zones of prefix and serial characters pass the two length and class checks, giving the mended zones joined |
| RegistrationPost.NormalizeRegDocnoIff | src/ocr_service/documents/registration/postprocess.py:25-51 | The checks never reject a match: a number comes out exactly when `DOCUMENT_NUMBER_VALUE` matches the normalised value; it is canonical and the match's mended zones |
| RegistrationPost.RegDocnoInIff | src/ocr_service/documents/registration/postprocess.py:36-51 | On any string a number comes out exactly when the pattern matches, and it is canonical |
| RegistrationPost.RegDocnoInZones | src/ocr_service/documents/registration/postprocess.py:40-44 | On a match the checks see its two zones, two prefix and five serial characters |
| RegistrationPost.CanonMatches | src/ocr_service/documents/registration/rules.py:77 | A canonical number is a match at its start |
| RegistrationPost.UpperStrOfNoLower | src/ocr_service/documents/registration/postprocess.py:40-41 | Upper-casing leaves a text without lower-case letters alone |
| RegistrationPost.MapFixOfFixed | src/ocr_service/documents/registration/postprocess.py:43-44 | A translation that leaves each character of a zone alone leaves the zone alone |
| RegistrationPost.CanonSpacing | src/ocr_service/documents/registration/postprocess.py:32 | A canonical number has no whitespace, so `norm_ws` leaves it alone |
| RegistrationPost.NormalizeRegDocnoCanonical | src/ocr_service/documents/registration/postprocess.py:25-51 | A canonical number is left as it is |
| RegistrationPost.CanonZonesFixed | src/ocr_service/documents/registration/postprocess.py:40-49 | The zones of a canonical number survive upper-casing and translation and pass the checks |
| RegistrationPost.NormalizeRegDocnoIdempotent | src/ocr_service/documents/registration/postprocess.py:25-51 | Normalising a normalised number changes nothing |
| RegistrationPost.Unspaced | src/ocr_service/documents/registration/postprocess.py:70 | `"".join(s.split())` keeps exactly the characters of `s` other than whitespace, in order |
| RegistrationPost.VinCandidateOf | src/ocr_service/documents/registration/postprocess.py:65-70 | The candidate of a match is its seventeen characters, upper-cased |
| RegistrationPost.VinCharMended | src/ocr_service/documents/registration/postprocess.py:19-23 | An ASCII letter or digit, upper-cased and mended by `_VIN_FIX`, is an upper-case letter or digit other than I, O and Q |
| RegistrationPost.VinChecksPass | src/ocr_service/documents/registration/postprocess.py:71-81 | Seventeen ASCII letters and digits, upper-cased, pass every check and come out mended character by character |
| RegistrationPost.NormalizeVinIff | src/ocr_service/documents/registration/postprocess.py:54-81 | The checks never reject a match: a VIN comes out exactly when `VIN_VALUE` matches the normalised value, and it is the match upper-cased and mended |
| RegistrationPost.VinInIff | src/ocr_service/documents/registration/postprocess.py:65-81 | On any string a VIN comes out exactly when the pattern matches, and it is canonical |
| RegistrationPost.VinChecksCanonical | src/ocr_service/documents/registration/postprocess.py:70-81 | Mending and upper-casing leave a canonical VIN alone |
| RegistrationPost.VinSpacing | src/ocr_service/documents/registration/postprocess.py:61 | A canonical VIN has no whitespace, so `norm_ws` leaves it alone |
| RegistrationPost.NormalizeVinCanonical | src/ocr_service/documents/registration/postprocess.py:54-81 | A canonical VIN is left as it is |
| RegistrationPost.NormalizeVinIdempotent | src/ocr_service/documents/registration/postprocess.py:54-81 | Normalising a normalised VIN changes nothing |
| RegistrationPost.NormWsOfEmptyToNone | src/ocr_service/documents/registration/postprocess.py:92-98 | A value already passed through `empty_to_none` normalises as the raw value does |
| RegistrationPost.CanonSurvives | src/ocr_service/documents/registration/postprocess.py:92-93 | A canonical VIN or number survives `empty_to_none` unchanged |
| RegistrationPost.Postprocess | src/ocr_service/documents/registration/postprocess.py:84-100 | The method leaves exactly `PostprocessOf(fields)`: the normalisation loop, then E, then the document number |
| RegistrationPost.ApplyFields | src/ocr_service/documents/registration/postprocess.py:92-98 | The updates keep the input keys and add E and "document_number"; those two hold the fixers' results on the normalised values, every other field is only normalised |
| RegistrationPost.ApplyFixed | src/ocr_service/documents/registration/postprocess.py:92-98 | The updates leave a record alone whose values are normalised and whose two fixed fields the fixers leave alone |
| RegistrationPost.NormalizeAllFixed | src/ocr_service/documents/registration/postprocess.py:92-93 | Normalising a record whose values are all normalised changes nothing |
| RegistrationPost.PostprocessKeys | src/ocr_service/documents/registration/postprocess.py:84-100 | The output keys are the input keys, E and "document_number" |
| RegistrationPost.PostprocessCanonical | src/ocr_service/documents/registration/postprocess.py:84-100 | E holds the canonical VIN of the raw value or None, the document number its canonical number or None |
| RegistrationPost.OthersNormalized | src/ocr_service/documents/registration/postprocess.py:84-100 | Every other field is only whitespace-normalised, empty becoming None |
| RegistrationPost.PostprocessIdempotent | src/ocr_service/documents/registration/postprocess.py:84-100 | Post-processing a post-processed record changes nothing |
| RegistrationProcessor.Assemble | src/ocr_service/documents/registration/processor.py:18-66 | The dictionary returned for extractor values has exactly the schema keys |
| RegistrationProcessor.Finish | src/ocr_service/documents/registration/processor.py:64-66 | The tail of `extract_fields` returns exactly `Assemble(x)`: filled, post-processed, projected |
| RegistrationProcessor.ExtractFields | src/ocr_service/documents/registration/processor.py:16-66 | The method returns exactly the record the extractors, the post-processor and the projection give on the text |
| RegistrationProcessor.FillIs | src/ocr_service/documents/registration/processor.py:18-62 | Each schema key of the filled record holds its extractor's value |
| RegistrationProcessor.ProjectedCanonical | src/ocr_service/documents/registration/processor.py:64-66 | The projection keeps the post-processed schema values |
| RegistrationProcessor.AssembledOther | src/ocr_service/documents/registration/processor.py:16-66 | Every key but the VIN and the document number holds its extractor's value, whitespace-normalised |
| RegistrationProcessor.AssembledFields | src/ocr_service/documents/registration/processor.py:16-66 | The dates, the towing summary and the seat counts hold their extractors' values, whitespace-normalised |
| RegistrationProcessor.AssembledCanonical | src/ocr_service/documents/registration/processor.py:16-66 | The VIN and the document number hold the canonical forms of their extractors' values, each canonical or None |
| RegistrationProcessor.StoredCanonical | src/ocr_service/documents/registration/processor.py:20-28 | The stored VIN is the canonical form of what `extract_E` found and the document number that of the first repeated token; each is canonical or None |
| RegistrationProcessor.TokenCanonicalises | src/ocr_service/documents/registration/postprocess.py:32-51 | An upper-cased document-number token always canonicalises |
| RegistrationProcessor.StoredDocumentNumberFound | src/ocr_service/documents/registration/processor.py:20 | A document number is stored exactly when some token is printed twice |
| RegistrationProcessor.IsoSurvives | src/ocr_service/documents/registration/postprocess.py:92-93 | An ISO date needs no whitespace normalisation |
| RegistrationProcessor.AssembledDates | src/ocr_service/documents/registration/processor.py:22-36 | A date value is stored unchanged |
| RegistrationProcessor.StoredDateB | src/ocr_service/documents/registration/processor.py:22 | The stored B is None or an ISO date: the earliest date of its label value, unchanged by post-processing |
| RegistrationProcessor.StoredDateI | src/ocr_service/documents/registration/processor.py:36 | The stored I is None or an ISO date: its extractor's value, unchanged by post-processing |
| RegistrationProcessor.PlainIntSurvives | src/ocr_service/documents/registration/postprocess.py:92-93 | A seat count is stored as its stripped digits |
| RegistrationProcessor.AssembledSeats | src/ocr_service/documents/registration/processor.py:54-55 | Seat counts are stored stripped |
| RegistrationProcessor.StoredSeatsS1 | src/ocr_service/documents/registration/processor.py:54 | The stored S.1 is its label value stripped: None or a plain number without a leading zero |
| RegistrationProcessor.StoredSeatsS2 | src/ocr_service/documents/registration/processor.py:55 | The stored S.2 is its label value stripped: None or a plain number without a leading zero |
| RegistrationProcessor.StoredTowing | src/ocr_service/documents/registration/processor.py:39 | The stored towing summary is the whitespace-normalised `extract_O` value |
| RegistrationProcessor.RegistrationFieldsShaped | src/ocr_service/documents/registration/processor.py:16-66 | Every result has exactly the schema keys and a canonical document number or None |
| RegistrationRules.StopLabels | src/ocr_service/documents/registration/rules.py:106-120 | The stop list holds the twenty-four field labels, in the certificate's order |
| RegistrationRules.StopOBlockEnd | src/ocr_service/documents/registration/rules.py:122-128 | The towing-block end list holds its eight labels |
| RegistrationRules.OBlockEndIsStop | src/ocr_service/documents/registration/rules.py:106-128 | Every label that closes the towing block is a stop label, so a line that ends the block also stops a forward scan |
| RegistrationRules.RegDocnoTokensFrom | src/ocr_service/documents/registration/extract.py:86-93 | Every token of `findall`, upper-cased, is two prefix-zone characters and five digit-zone characters without lower-case letters |
| RegistrationRules.RegDocnoNoOverlap | src/ocr_service/documents/registration/rules.py:77 | No match starts inside another, so resuming the search at a match's end loses none |
| RegistrationRules.RegDocnoTokensComplete | src/ocr_service/documents/registration/extract.py:86-93 | Every position where the pattern matches yields its upper-cased token |
| RegistrationRules.RegDocnoFrom | src/ocr_service/documents/registration/rules.py:77 | The least position from `p` where the document-number pattern matches, None when there is none |
| RegistrationRules.RegDocnoValue | src/ocr_service/documents/registration/rules.py:77 | The search finds the leftmost match, seven characters long, None when there is none; group 1 is the two-character prefix and group 2 the serial |
| RegistrationRules.VinFrom | src/ocr_service/documents/registration/rules.py:80 | The least position from `p` where the VIN pattern matches, None when there is none |
| RegistrationRules.VinValue | src/ocr_service/documents/registration/rules.py:80 | The search finds the leftmost run of exactly seventeen ASCII letters and digits, None when there is none; group 1 is the whole match |
| RegistrationRules.VinOfToken | src/ocr_service/documents/registration/rules.py:80 | Seventeen letters and digits on their own are a match at position 0, and group 1 is all of them |
| RegistrationRules.VinGroupOne | src/ocr_service/documents/registration/extract.py:129-135 | Group 1 of a match is non-empty, has no surrounding whitespace and is a match on its own |
| RegistrationRules.PlateLetters | src/ocr_service/documents/registration/rules.py:83-88 | The letter zone the engine settles on is four characters when a four-letter match exists, else three, else no match |
| RegistrationRules.PlateFrom | src/ocr_service/documents/registration/rules.py:83-88 | The least position from `p` where the plate pattern matches, None when there is none |
| RegistrationRules.PlateValue | src/ocr_service/documents/registration/rules.py:83-88 | The search finds the leftmost plate, None when there is none; group 1 is the letter zone and group 2 the three-character digit zone |
| RegistrationRules.PlateOfWholeMatch | src/ocr_service/documents/registration/extract.py:99-105 | The whole plate match read on its own is a match at position 0 over all of it |
| RegistrationRules.PlateGroupOneTooShort | src/ocr_service/documents/registration/extract.py:99-105 | Group 1 has three or four characters, and on its own is never a plate |
| RegistrationRules.PlateCharNotSpace | src/ocr_service/documents/registration/rules.py:85-86 | No character of a plate zone is whitespace |
| RegistrationRules.PlateGroupsTrimmed | src/ocr_service/documents/registration/extract.py:99-105 | The whole match and group 1 are non-empty and have no surrounding whitespace |
| RegistrationRules.DigitRunDigits | src/ocr_service/documents/registration/rules.py:91-95 | The greedy digit run of a unit pattern is made of digits |
| RegistrationRules.UnitEnd | src/ocr_service/documents/registration/rules.py:91-95 | A unit pattern match covers a whole digit run of the allowed length, optional whitespace and the unit word, with word boundaries |
| RegistrationRules.UnitFrom | src/ocr_service/documents/registration/rules.py:91-95 | The least position from `p` where the unit pattern matches, None when there is none |
| RegistrationRules.UnitValue | src/ocr_service/documents/registration/rules.py:91-95 | The search finds the leftmost unit match, None when there is none; group 1 is its digit run |
| RegistrationRules.UnitGroupDigits | src/ocr_service/documents/registration/rules.py:91-95 | Group 1 of a unit match is between `lo` and `hi` digits |
| RegistrationRules.UnitGroupTrimmed | src/ocr_service/documents/registration/extract.py:243-258 | Group 1 of a kg, cm3 or kW match is a non-empty number without surrounding whitespace |
| RegistrationRules.UnitWholeNonBlank | src/ocr_service/documents/registration/extract.py:209-216 | The whole unit match starts with a digit, so stripping it never leaves the empty string |
| RegistrationRules.FuelFrom | src/ocr_service/documents/registration/rules.py:98 | The alternative taken at `p` is the first to match there followed by a word boundary |
| RegistrationRules.FuelFromFinds | src/ocr_service/documents/registration/rules.py:98 | An alternative that matches from `k` on is always found |
| RegistrationRules.FuelSearchFrom | src/ocr_service/documents/registration/rules.py:98 | The least position from `p` where a fuel word matches, None when there is none |
| RegistrationRules.FuelValue | src/ocr_service/documents/registration/rules.py:98 | The search finds the leftmost fuel word, None when there is none |
| RegistrationRules.YearFrom | src/ocr_service/documents/registration/rules.py:100 | The least position from `p` where the year pattern matches, None when there is none |
| RegistrationRules.YearValue | src/ocr_service/documents/registration/rules.py:100 | The search finds the leftmost standalone four-digit year from 1900 to 2099, None when there is none |
| RegistrationRules.SmallNumberFrom | src/ocr_service/documents/registration/rules.py:102-104 | The least position from `p` where a standalone number of one to three digits starts, None when there is none |
| RegistrationRules.SmallNumberValue | src/ocr_service/documents/registration/rules.py:102-104 | The search finds the leftmost standalone number of one to three digits, None when there is none; group 1 is that number |
| RegistrationRules.FuelWordMatches | src/ocr_service/documents/registration/rules.py:98 | A word spelling a fuel alternative in any case is non-empty, has no surrounding whitespace and matches on its own |
| RegistrationRules.FuelGroupOne | src/ocr_service/documents/registration/extract.py:261-267 | Group 1 of a fuel match is the word as written: non-empty, no surrounding whitespace, and a match on its own |
| RegistrationTowing.TowingOf | src/ocr_service/documents/registration/extract.py:197-204 | The anchors are the six sub-label patterns, one per key |
| RegistrationTowing.KgLineFrom | src/ocr_service/documents/registration/extract.py:209-216 | The line a weight is taken from lies in the six-line window, holds a weight and, after the anchor line, does not end the block |
| RegistrationTowing.KgNear | src/ocr_service/documents/registration/extract.py:209-216 | A weight found is non-empty and comes from the line the window search settles on |
| RegistrationTowing.KgNearFound | src/ocr_service/documents/registration/extract.py:209-216 | A weight is found exactly when the window search settles on a line |
| RegistrationTowing.KgLinePassed | src/ocr_service/documents/registration/extract.py:210-213 | Every line the search passes over holds no weight, and none after the anchor line ends the block |
| RegistrationTowing.KgOnAnchorLine | src/ocr_service/documents/registration/extract.py:210-215 | A weight on the anchor line itself is the one taken, whatever that line holds |
| RegistrationTowing.FindKgNear | src/ocr_service/documents/registration/extract.py:209-216 | The loop over the window returns exactly `KgNear` |
| RegistrationTowing.EntryShape | src/ocr_service/documents/registration/extract.py:222-238 | An anchor gives an entry exactly when it matches, a weight is near and the O.2 guard lets it through; the entry reads `key=kg` |
| RegistrationTowing.O2AfterS2 | src/ocr_service/documents/registration/extract.py:230-234 | The O.2 anchor on the line after an S.2 label gives no entry |
| RegistrationTowing.AnchorEntry | src/ocr_service/documents/registration/extract.py:222-234 | The body of the inner loop computes exactly the anchor's entry |
| RegistrationTowing.Row | src/ocr_service/documents/registration/extract.py:222 | A line gives at most one entry per anchor tried |
| RegistrationTowing.Kept | src/ocr_service/documents/registration/extract.py:236-238 | The `seen` check keeps no more entries than it meets |
| RegistrationTowing.Values | src/ocr_service/documents/registration/extract.py:238 | There is one `key=kg` text per kept entry |
| RegistrationTowing.JoinWith | src/ocr_service/documents/registration/extract.py:240 | The joined text starts with the first item |
| RegistrationTowing.Summary | src/ocr_service/documents/registration/extract.py:240 | The summary is None exactly when no entry was kept, and otherwise starts with the first entry |
| RegistrationTowing.KeptSnoc | src/ocr_service/documents/registration/extract.py:236-238 | One more entry is kept exactly when its key is new |
| RegistrationTowing.KeptDistinct | src/ocr_service/documents/registration/extract.py:236-238 | Kept entries have pairwise distinct keys |
| RegistrationTowing.KeptKeys | src/ocr_service/documents/registration/extract.py:236-238 | The kept entries have exactly the keys of all entries met |
| RegistrationTowing.KeptFirst | src/ocr_service/documents/registration/extract.py:236-238 | Each kept entry is the first entry met with its key |
| RegistrationTowing.RowKeys | src/ocr_service/documents/registration/extract.py:222-238 | Every entry carries the key of an anchor |
| RegistrationTowing.CandsKeys | src/ocr_service/documents/registration/extract.py:221-238 | Every entry met carries the key of an anchor |
| RegistrationTowing.AtMostSix | src/ocr_service/documents/registration/extract.py:197-204 | Entries with distinct anchor keys number at most six |
| RegistrationTowing.TowingSummary | src/ocr_service/documents/registration/extract.py:190-240 | The summary keeps at most six entries with distinct keys, one per sub-label found, and is None exactly when no anchor gave an entry |
| RegistrationTowing.TowingFirstWins | src/ocr_service/documents/registration/extract.py:221-238 | Each entry of the summary is the first `extract_O` meets with its key |
| RegistrationTowing.TracksSnoc | src/ocr_service/documents/registration/extract.py:236-238 | One step of the `seen` check keeps `results` and `seen` in step with the entries met |
| RegistrationTowing.ScanAnchors | src/ocr_service/documents/registration/extract.py:222-238 | The inner loop brings `results` and `seen` in step with the line's entries |
| RegistrationTowing.ExtractO | src/ocr_service/documents/registration/extract.py:190-240 | The method returns exactly `ExtractOOf`, the summary of the first entry per sub-label |
| Registry.ClassFor | src/ocr_service/documents/registry.py:19-29 | Every document type but COC has a processor class |
| Registry.ValueInjective | src/ocr_service/documents/registry.py:19-29 | Two document types with the same enum value are the same type |
| Registry.RegistryMatchesDocType | src/ocr_service/documents/registry.py:19-29 | Each registered class handles the type it is registered under, and no two types share one |
| Registry.GetProcessor | src/ocr_service/documents/registry.py:32-34 | None exactly for a type without a class; otherwise a fresh instance of the registered class |
| Service.CategoryOfDocType | src/ocr_service/pipeline/service.py:10-13 | A payload is vehicle data exactly for REGISTRATION and COC |
| Service.UnifyPayload | src/ocr_service/pipeline/service.py:12-24 | The category is that of the type's value, and the payload holds exactly the category's schema keys, each the input's value or None |
| Service.UnifyExact | src/ocr_service/pipeline/service.py:12-24 | A payload that already has exactly the schema keys is unchanged |
| Service.ProcessDocumentAlwaysRaises | src/ocr_service/pipeline/service.py:62-68 | As written, every call raises: a processor error, or the TypeError of the `ExtractionResult` constructor |
| Service.ConcludeSpec | src/ocr_service/pipeline/service.py:45-68 | The result exists exactly when extraction did; it carries the requested type, the processor's document number and its other fields unchanged, is always correct, and has confidence 0.5 exactly when there is text |
| Service.CocHasNoFields | src/ocr_service/pipeline/service.py:45-54 | A COC document has no processor, so no fields and no document number |
| Service.RegistrationKeysAreVehicleKeys | src/ocr_service/pipeline/service.py:51-54 | The registration schema without the document number is the vehicle schema |
| Service.ProcessRegistration | src/ocr_service/pipeline/service.py:45-68 | A registration result holds exactly the vehicle schema keys and a canonical document number or None |
| Service.ProcessRegistrationText | src/ocr_service/pipeline/service.py:45-68 | With the registry's own processors every registration text gives a result, whose fields are exactly the vehicle schema keys and whose document number is canonical or None |
| Registry.Processor.constructor | src/ocr_service/documents/registry.py:34 | The instance holds the class it is made from |

## Left out

- Characters: Python's Unicode `isspace`, `isdigit`, `isalpha`, `upper()`, `lower()` and the regex classes `\s`, `\d`, `\w` are modelled on ASCII, the Hungarian accented letters and the line separators only (`Chars`). Other scripts, other Unicode digits and the IGNORECASE extras (`ſ`, the Kelvin sign, dotless `ı`) are not modelled.
- Label patterns: the label-synonym tables (`core/utils/patterns.py` and the `rules.py` files of the identity cards, the passport and the driving licence) are not part of this model. Each compiled label, those of `address_card/rules.py` and `registration/rules.py` included, is a `Regex.Matcher` parameter, a function from a line to its first match; no property of a label regex is assumed beyond what a match is. The fixed value shapes of the core (dates, document numbers, VIN, plate, units, MRZ) are written out as recognisers.
- Regex groups: a group that takes no part in a match is read as "" where Python's `None.upper()` or `None.strip()` would raise; the patterns the core builds on have group 1 at top level, so it always takes part.
- Regex.LastIndex: `m.lastindex` is read as the highest-numbered group that took part in the match, while Python reports the group that closed last. The two differ only for nested groups, as in `((a)b)`; the value shapes written out here have none, but a label pattern, being a parameter, could, and for one that nests groups `match_value` may then read a different group than Python.
- Schema files: `id_front/schema.py` and `driving_license/schema.py` are not part of this model, so their key lists are parameters (`Registry.Env`). Every `schema.empty()` is taken to map each key to None, as the schema files shown do.
- Month names: the accented keys of `MONTH_MAP` in `core/utils/rules.py` are mis-encoded in the file (they cannot match correctly encoded text), so only its ASCII keys are modelled; the correct spellings of the earlier table in `core/utils/patterns.py` are kept for `Normalization`.
- Records: a field dictionary is a map from the known keys to `Option<string>` (`Fields.Record`); unknown keys, non-string values and dictionary order are not modelled.
- Results: the `ExtractionResult` of `core/types.py` is modelled as `Service.Outcome`, which has the `document_number` field the service passes and no `warnings`; the constructor mismatch itself is recorded in `Service.ProcessDocumentAsWritten` (see "## Findings"). `confidence` is a real number with the two values the stub uses.
- Missing helpers: `norm_ws` and `empty_to_none` are imported from `core/utils/normalize.py` but not defined there; `Normalize.NormWs` and `Normalize.EmptyToNone` give them their documented behaviour (whitespace-normalise, empty becomes None). `normalize_id_number` is likewise missing there; `IdOldFront` uses the one of `documents/id_front/normalize.py`.
- Import failure: as written, `pipeline/service.py`, `documents/registry.py`, the registration processor and the old-style ID front processor cannot be imported (`Imports`). `Registry.GetProcessor`, `Registry.ExtractWith` and `Service.ProcessDocument` model the modules as they would load with the helpers defined.
- `Text.SplitBirthDateAndPlace`: the date step after the undefined `normalize_line_for_kv` (and the undefined `extract_dates`) is unreachable, since every non-empty value raises NameError first.
- I/O: the OCR client, settings, the OCR cache, the HTTP endpoints, the chunked upload, temporary files, base64 decoding, `_write_temp_bytes`, `_build_response` and `process_base64` of `api/routes.py` are not modelled. The OCR text is a parameter; `html.unescape` in `_mrz_clean` and `date.today()` in the MRZ birth-date rule are parameters; the environment-derived upload limits are constants with their default values.
- Processors: each processor's `extract_fields` is modelled as the value it returns for a given OCR text; the `OCRResult` wrapper, the `DocumentProcessor` base class and the empty stub processors under `documents/processors/` (address card, old-style ID back, passport, driving licence) are not modelled.

## Findings

| source | as written | input that shows it | evidently intended | confidence | as-written member | corrected member |
|---|---|---|---|---|---|---|
| src/ocr_service/documents/address_card/extract.py:138 | the global fallback returns group 1 of the two-group `DOCNO_VALUE` (six digits), so the second `DOCNO_VALUE.search` on it never matches | a card whose number "123456 AB" appears only outside the title label's lines | the fallback's whole match is searched, so the number is found | not executed | AddressCard.DocumentNumberFallbackLost | AddressCard.DocumentNumberFallback |
| src/ocr_service/documents/address_card/extract.py:164 | when the label line has no value, the continuation scan starts at the label line and finds the place line again | lines "SZÜLETÉSI HELY, IDŐ", "BUDAPEST": the birth place becomes "BUDAPEST, BUDAPEST" | the scan starts at the place line, so the continuation is the line after it | not executed | AddressCard.BirthPlaceRepeats | AddressCard.BirthPlaceNoRepeat |
| src/ocr_service/documents/registration/extract.py:104 | the `PLATE_VALUE` fallback of `extract_A` returns group 1, the three or four letters of the plate | a certificate whose plate "ABC123" is not near the A label: A becomes "ABC" | the whole plate is returned | not executed | Registration.AFallbackLettersOnly | Registration.ExtractAIsPlate |
| src/ocr_service/documents/id_old_back/extract.py:60 | `s.split()[0]` raises IndexError when nothing follows the last '/' | nationality value "HUN/" | no token gives None | not executed | IdOldBack.NationalityTrailingSlash | IdOldBack.NationalityCorrects |
| src/ocr_service/documents/passport/extract.py:170 | `replace(m.group(0), " ", 1)` blanks the first occurrence of the matched text, which can lie before the match | line "MISKOLC M": the birth place becomes "ISKOLC M" | the matched span itself is replaced, giving "MISKOLC" | not executed | Passport.PlaceRestMiskolc | Passport.SplicedKeepsContext |
| src/ocr_service/pipeline/service.py:62 | `ExtractionResult(document_number=...)` passes a field the dataclass does not have and omits the required `warnings`, so it raises TypeError | any call that gets past dispatch | a result with the type, the popped document number, the stub scoring and the fields | not executed | Service.ProcessDocumentAlwaysRaises | Service.ConcludeSpec |
| src/ocr_service/documents/id_old_front/extract.py:5 | `normalize_id_number` is imported from `core/utils/normalize.py`, which does not define it, so the registry and the service fail to import | importing `pipeline/service.py` | the helper is defined there (as in `documents/id_front/normalize.py`) and every module loads | not executed | Imports.ServiceImportFails | Imports.AllLoadWithHelpers |
| src/ocr_service/documents/registration/postprocess.py:5 | `empty_to_none` and `norm_ws` are imported from `core/utils/normalize.py`, which defines neither, so both post-processors and the registration processor fail to import | importing `documents/registration/processor.py` | the helpers are defined with their documented behaviour and every module loads | not executed | Imports.PostprocessImportFails | Imports.AllLoadWithHelpers |
| src/ocr_service/core/utils/normalization.py:79 | the male test looks for " M " and " F " in the padded text, so the documented token "F/M" is not recognised | raw sex value "F/M" gives None | "F/M" is male, as the docstring lists it | not executed | Normalization.SexFMUnrecognised | Normalization.NormalizeSex |
