# Recicle-Me form logic in Dafny

This project models the pure logic of the Recicle-Me web front end: the
input masks, validators, state updates and payload encoders of the pages that
register users and collection points, plus the details page that shows a
collection point's materials and hours. React state setters become pure
`prev -> next` functions. Each `validateForm` becomes a function that builds
the field-to-message error map, plus a predicate that holds exactly when that
map is empty. Regular-expression replacements and string methods are written
out in `Text` and `Mask`.

Modules, in dependency order:

- `Wrappers`: `Option`.
- `Text`: `\d`, `\s`, `replace(/\D/g, "")`, `replace(":", "")`, `slice` and JavaScript string order.
- `Mask`: a one-shot `replace` with a fixed-width digit-group pattern, as a template (`#####-###`).
- `Cep`: `formatCEP` and the condition that starts the address lookup.
- `Cpf`: `validateCPF` and both `formatCPF` versions.
- `Email`: the `\S+@\S+\.\S+` test.
- `ErrorMaps`: building an error map.
- `SignupRules`: the per-field rules both sign-up pages share.
- `AuthSignup`: components/auth/signup-page.tsx.
- `Signup`: signup-page.tsx.
- `ServerErrors`: folding the backend's messages into the error map.
- `Schedule`: the seven-day hours record, its single-field update, open days and the day tables.
- `WasteTypes`: the catalogue, the selection updates and the lookup.
- `AuthPointRegister`: components/auth/collection-point-register-page.tsx.
- `MainPointRegister`: components/main_pages/collection-point-register-page.tsx.
- `PointDetails`: components/main_pages/collection-point-details-page.tsx.

## Notes on the code

The details page shows the status "Aberto" for every point, whatever its hours
(components/main_pages/collection-point-details-page.tsx:118). It renders one
row per entry of `diasPontoColeta`, in the order the entries arrive. It puts a
colon after the second character of each time without checking the time.
`PointDetails` models the last two; the status text is presentation and has
no rule behind it to model. `Schedule.DayOfCode` only inverts the
register page's day-flag table, to show that the encoding is injective.

The three copies of the waste-type catalogue are identical. So are the two
copies of `formatCEP`, of `handleWasteTypeChange` and of
`handleOperatingHoursChange`. Each is modelled once.

## Model

| member | source | states |
|---|---|---|
| Text.Digits | components/auth/collection-point-register-page.tsx:71 | stripping non-digits leaves only digits and never lengthens the string |
| Text.IsSpace | components/auth/signup-page.tsx:75 | among ASCII characters, `\s` matches exactly the space and the controls TAB to CR |
| Text.DigitsKeepsExactlyDigits | components/auth/collection-point-register-page.tsx:71 | a character survives `replace(/\D/g, "")` exactly when it is a digit of the input |
| Text.DigitsIdempotent | components/main_pages/collection-point-register-page.tsx:179 | stripping an already stripped value changes nothing |
| Text.RemoveFirstAt | components/auth/collection-point-register-page.tsx:228 | `replace(":", "")` removes only the first colon, keeping everything before and after it |
| Text.RemoveFirst | components/auth/collection-point-register-page.tsx:228-229 | removing a colon shortens the string by one when it has a colon and leaves it alone otherwise |
| Text.Slice | components/main_pages/collection-point-details-page.tsx:149 | `slice(0, 2)` clamps to the string: the in-range slice when both ends fit, the tail when only the start fits, empty when the start is past the end, never longer than asked |
| Text.SliceFrom | components/main_pages/collection-point-details-page.tsx:149 | `slice(2)` is the tail from index 2, or empty for a shorter string |
| Text.Below | components/main_pages/collection-point-register-page.tsx:160 | no string is below itself, and a proper prefix is below the longer string |
| Text.BelowTrichotomy | components/main_pages/collection-point-register-page.tsx:160 | JavaScript string comparison orders any two strings one way, or finds them equal |
| Mask.ReplaceFirst | components/auth/collection-point-register-page.tsx:73 | with no run of enough consecutive digits the string is returned unchanged; when there is one, the result is as long as the input less the run plus the template (what replaces the run is stated for digit strings by `Mask.ReplaceFirstOnDigits`) |
| Mask.ReplaceFirstOnDigits | components/auth/collection-point-register-page.tsx:73 | on a digit string the pattern matches at the start: enough digits are masked from the front and the rest kept, too few are left alone |
| Mask.DigitsOfReplaceFirst | components/auth/collection-point-register-page.tsx:73 | masking a digit string neither loses nor invents a digit |
| Mask.DigitsOfFill | components/auth/signup-page.tsx:52 | the filled replacement string strips back to exactly the captured digits |
| Cep.FormatCep | components/auth/collection-point-register-page.tsx:70-76 | exactly 8 digits give `ddddd-ddd`; fewer give the digits alone; more return the input unchanged |
| Cep.FormatCepKeepsDigits | components/main_pages/collection-point-register-page.tsx:65-71 | the masked value has the same digits as the typed value |
| Cep.FormatCepIdempotent | components/auth/collection-point-register-page.tsx:70-76 | masking an already masked CEP changes nothing |
| Cep.CepLookupKey | components/auth/collection-point-register-page.tsx:78-86 | the address lookup fires exactly when the typed value has 8 digits, and is sent those digits |
| Cpf.ValidateCpf | signup-page.tsx:39-43 | an accepted value has at least 11 characters, and a value of digits alone is accepted exactly when it has 11 |
| Cpf.FormatCpf | signup-page.tsx:45-51 | exactly 11 digits give `ddd.ddd.ddd-dd`; fewer give the digits alone; more return the input unchanged |
| Cpf.FormatCpfUnguarded | components/auth/signup-page.tsx:50-53 | at least 11 digits give the first 11 masked followed by the remaining digits; fewer give the digits alone |
| Cpf.FormatCpfKeepsDigits | signup-page.tsx:45-51 | both CPF masks keep exactly the digits of every input; above 11 digits the guarded one returns the input itself |
| Cpf.FormatCpfIdempotent | signup-page.tsx:45-51 | both CPF masks are stable when applied again to their own output |
| Cpf.ValidateCpfOfFormatted | signup-page.tsx:39-43 | `validateCPF` accepts the masked value exactly when it accepts the typed value |
| Cpf.ValidCpfDisplay | components/auth/signup-page.tsx:45-53 | a value `validateCPF` accepts is shown by both masks as the same 14-character `ddd.ddd.ddd-dd` |
| Email.EmailTestMatchesPattern | components/auth/signup-page.tsx:75 | the bounded search accepts exactly the strings containing non-space+ `@` non-space+ `.` non-space+ |
| Email.EmailTest | signup-page.tsx:66 | a string the test accepts has an `@` with a `.` after it and at least five characters |
| SignupRules.PasswordError | components/auth/signup-page.tsx:82-83 | the password is flagged exactly when shorter than 6 characters, as "required" when empty |
| SignupRules.ConfirmError | components/auth/signup-page.tsx:85-87 | the confirmation is flagged exactly when it is empty or differs from the password, as "required" when empty |
| SignupRules.EmailError | components/auth/signup-page.tsx:74-75 | the email is flagged exactly when it fails the pattern, as "required" when empty |
| SignupRules.CpfError | components/auth/signup-page.tsx:77-78 | the CPF is flagged exactly when it has not 11 digits, as "required" when empty |
| SignupRules.LoginError | components/auth/signup-page.tsx:80 | the login is flagged exactly when empty, with "Login é obrigatório" |
| AuthSignup.ChangeCpf | components/auth/signup-page.tsx:55-60 | a CPF edit stores the unguarded mask of the typed value and leaves the other fields alone |
| AuthSignup.IdentityErrors | components/auth/signup-page.tsx:74-80 | a message for the email, the CPF and the login exactly when each fails its rule, and no other key |
| AuthSignup.Errors | components/auth/signup-page.tsx:71-88 | one message per failing field (email, cpf, login, password, confirmPassword), the "required" message taking precedence |
| AuthSignup.ValidateForm | components/auth/signup-page.tsx:71-91 | true exactly when the email matches, the CPF has 11 digits, the login is non-empty, the password has 6+ characters and the confirmation equals it |
| AuthSignup.Request | components/auth/signup-page.tsx:101-110 | the request carries the CPF digits only, and copies email, login and password |
| AuthSignup.RequestOfValidForm | components/auth/signup-page.tsx:93-110 | a validated form sends exactly the 11 digits typed into the masked CPF field |
| Signup.ChangeCpf | signup-page.tsx:53-59 | a CPF edit stores the guarded mask of the typed value and leaves the other fields alone |
| Signup.Errors | signup-page.tsx:61-87 | one message per failing field (email, cpf, password, confirmPassword), the "required" message taking precedence; there is no login field |
| Signup.ValidateForm | signup-page.tsx:61-90 | true exactly when the email matches, the CPF has 11 digits, the password has 6+ characters and the confirmation equals it |
| Signup.BuildPayload | signup-page.tsx:97-106 | the login is the email, the CPF is its digits only, and the password is copied |
| Signup.PayloadOfValidForm | signup-page.tsx:95-106 | a validated form submits the 11 typed CPF digits and a login that passes the email test |
| ServerErrors.FoldMessages | components/auth/collection-point-register-page.tsx:243-248 | every field named in the messages gets a key, no other key appears, and the last message for a field wins |
| Schedule.DayOfCode | components/auth/collection-point-register-page.tsx:219-227 | reads a day flag back: it returns a day whose flag is the code, or none when no day has that flag |
| Schedule.DayTablesInvert | components/auth/collection-point-register-page.tsx:219-227 | the day-flag table `Schedule.DayCode` (SEG … DOM) and the record keys are injective, so each flag or key names one day |
| Schedule.RecordOrderIsEnumeration | components/auth/collection-point-register-page.tsx:28-36 | the record lists each of the seven days exactly once, monday first |
| Schedule.ChangeHours | components/auth/collection-point-register-page.tsx:117-125 | the edited field of the edited day takes the new value; its other fields and every other day are kept |
| Schedule.OpenAmong | components/auth/collection-point-register-page.tsx:216-217 | the filter keeps exactly the open days of the list |
| Schedule.OpenDays | components/auth/collection-point-register-page.tsx:216-217 | the open days are exactly the days with `isOpen`, in strictly increasing monday-to-sunday order, so each appears once |
| Schedule.AnyOpen | components/auth/collection-point-register-page.tsx:137 | `some(d => d.isOpen)` holds exactly when some day is open |
| Schedule.SomeEntryOpen | components/main_pages/collection-point-register-page.tsx:153 | some record entry is open exactly when some day is, exactly when the list of open days is non-empty |
| Schedule.ClockOrderIsTimeOrder | components/main_pages/collection-point-register-page.tsx:160 | for zero-padded `HH:MM` values, string order is time-of-day order |
| WasteTypes.CatalogueWellFormed | components/main_pages/collection-point-details-page.tsx:24-33 | the eight catalogue ids are distinct and every name is non-empty |
| WasteTypes.ChangeWasteType | components/auth/collection-point-register-page.tsx:109-115 | after a change the id is selected exactly when the box is checked, and every other id keeps its count |
| WasteTypes.Check | components/auth/collection-point-register-page.tsx:110-111 | checking appends the id at the end and keeps the earlier selection |
| WasteTypes.Uncheck | components/auth/collection-point-register-page.tsx:112-113 | unchecking removes every occurrence of the id and keeps every other id as often as before |
| WasteTypes.UncheckKeepsOrder | components/auth/collection-point-register-page.tsx:113 | unchecking distributes over concatenation and leaves lists without the id unchanged, so the remaining ids keep their order |
| WasteTypes.CheckboxKeepsSelectionDistinct | components/auth/collection-point-register-page.tsx:109-115 | when the checkbox reports the opposite of `includes`, the selection never holds an id twice |
| WasteTypes.UncheckUndoesCheck | components/auth/collection-point-register-page.tsx:109-115 | unchecking an id that was just checked restores the earlier selection |
| WasteTypes.Find | components/main_pages/collection-point-details-page.tsx:129 | the lookup returns a catalogue entry with that id, or none when no entry has it |
| WasteTypes.Describe | components/main_pages/collection-point-details-page.tsx:128-133 | a known id shows its catalogue name and description; an unknown id shows itself and "Descrição não disponível" |
| AuthPointRegister.ChangeCep | components/auth/collection-point-register-page.tsx:78-83 | a CEP edit stores the masked value and leaves the other fields alone |
| AuthPointRegister.AddressErrors | components/auth/collection-point-register-page.tsx:130-134 | for each of cep, logradouro, bairro, cidade and estado that is empty, its own "obrigatório"/"obrigatória" message; no other key |
| AuthPointRegister.Errors | components/auth/collection-point-register-page.tsx:127-139 | the address messages, plus "Selecione ao menos um tipo de resíduo" and "Selecione ao menos um dia de funcionamento"; `nome` never gets a message |
| AuthPointRegister.ValidateForm | components/auth/collection-point-register-page.tsx:127-142 | true exactly when cep, logradouro, bairro, cidade and estado are non-empty, a waste type is selected and a day is open |
| AuthPointRegister.CompactTime | components/auth/collection-point-register-page.tsx:228-229 | an `HH:MM` time is sent as the four digits `HHMM` |
| AuthPointRegister.EncodeDays | components/auth/collection-point-register-page.tsx:216-230 | one entry per open day in record order, whose flag reads back as that day and whose times lose their colon |
| AuthPointRegister.EncodeDaysSpec | components/auth/collection-point-register-page.tsx:216-230 | a day's flag is sent exactly when the day is open, and flags come in monday-to-sunday order |
| AuthPointRegister.BuildPayload | components/auth/collection-point-register-page.tsx:204-231 | the form fields are copied, with the CEP still masked; there is one `tipoColeta` per selected id, in order, and the encoded open days |
| AuthPointRegister.PayloadOfValidForm | components/auth/collection-point-register-page.tsx:149-231 | a validated form posts at least one waste type and at least one day |
| AuthPointRegister.InitialStateNotSubmittable | components/auth/collection-point-register-page.tsx:18-36 | the initial CEP `""` is what masking an empty CEP gives, no day starts open, and so the initial form does not validate |
| MainPointRegister.TimeKeysDistinct | components/main_pages/collection-point-register-page.tsx:161 | each day has its own `<day>Time` error key, distinct from every field key |
| MainPointRegister.BadHours | components/main_pages/collection-point-register-page.tsx:160 | a day is flagged exactly when it is open and its closing time is below or equal to its opening time |
| MainPointRegister.TimeErrors | components/main_pages/collection-point-register-page.tsx:159-163 | the pass records the time message under the key of every open day whose opening is not below its closing, and adds nothing else |
| MainPointRegister.AddressErrors | components/main_pages/collection-point-register-page.tsx:126-146 | an empty CEP gets "CEP é obrigatório" and a CEP without 8 digits "CEP deve ter 8 dígitos"; each empty address field gets its own "obrigatório"/"obrigatória" message; no other key |
| MainPointRegister.FieldErrors | components/main_pages/collection-point-register-page.tsx:126-156 | the CEP and address errors, plus "Selecione pelo menos um tipo de resíduo" exactly when nothing is selected and "Selecione pelo menos um dia de funcionamento" exactly when no day is open; no other key |
| MainPointRegister.Errors | components/main_pages/collection-point-register-page.tsx:123-165 | the field errors with their messages, plus the time message under `<day>Time` exactly for open days with `openTime >= closeTime`; closed days never get one |
| MainPointRegister.ValidateForm | components/main_pages/collection-point-register-page.tsx:123-167 | true exactly when the CEP has 8 digits, the address fields are non-empty, a waste type is selected, a day is open and every open day opens before it closes |
| MainPointRegister.HoursCheckIsChronological | components/main_pages/collection-point-register-page.tsx:159-163 | for time-input values the check rejects exactly the open days whose opening is not earlier than their closing, equal times included |
| MainPointRegister.ClearedOpeningTimePasses | components/main_pages/collection-point-register-page.tsx:160 | an open day with an empty opening time and a non-empty closing time passes the check |
| MainPointRegister.PointPayload | components/main_pages/collection-point-register-page.tsx:177-185 | the CEP is sent as digits only, the other fields are copied, and the user id is the simulated 1 |
| MainPointRegister.WasteTypesPayload | components/main_pages/collection-point-register-page.tsx:188-191 | one entry per selected id, in selection order, each with the fixed `tipoColetaId` 5 |
| MainPointRegister.OperatingHoursPayload | components/main_pages/collection-point-register-page.tsx:194-201 | one entry per open day in record order, keyed by its English name, with its times unchanged |
| MainPointRegister.PayloadsOfValidForm | components/main_pages/collection-point-register-page.tsx:169-201 | a validated form sends the 8 typed CEP digits, at least one waste type and day, and only days that open before they close |
| PointDetails.RenderTime | components/main_pages/collection-point-details-page.tsx:149 | a colon is inserted after the first two characters, with the rest kept; a time shorter than two characters is shown with a colon appended |
| PointDetails.RenderTimeOfCompact | components/main_pages/collection-point-details-page.tsx:149 | a 4-character time renders as 5 characters with `:` at index 2, and removing that colon gives it back |
| PointDetails.TimeRoundTrip | components/main_pages/collection-point-details-page.tsx:149 | an `HH:MM` value with its colon removed by the register page renders back as the same `HH:MM` |
| PointDetails.ColonlessTimeRendersChanged | components/main_pages/collection-point-details-page.tsx:149 | a time without a colon, such as a cleared field's `""`, is sent unchanged and never shown as entered; `""` is shown as `:` |
| PointDetails.RenderSchedule | components/main_pages/collection-point-details-page.tsx:145-152 | one row per entry, in the entries' order, labelled with the entry's key |
| PointDetails.RenderRow | components/main_pages/collection-point-details-page.tsx:146-150 | a row carries the day key, and its text is both times with a colon added to each, joined by " - " |
| PointDetails.RegisteredHoursRenderBack | components/main_pages/collection-point-details-page.tsx:145-152 | when every open day holds a well-formed `HH:MM`, the rows shown for a registered point are its open days in monday-to-sunday order, with the times as entered |
| PointDetails.MaterialLines | components/main_pages/collection-point-details-page.tsx:128-135 | one line per received id, in order, using the catalogue entry when one exists and the fallback otherwise |

## Left out

- Network calls are not modelled. This covers the ViaCEP address lookup and the fields it fills in, Nominatim geocoding, and the backend posts and reads. Their async sequencing and loading flags are left out too. Only the decisions around them are modelled: the 8-digit trigger, the payloads, and the fold of returned messages.
- The latitude and longitude of the auth register payload are not modelled. They are floating-point results of geocoding.
- JWT decoding and the `userId` it yields are not modelled. `userId` is a parameter of `AuthPointRegister.BuildPayload`. localStorage, route guards and logout are also left out.
- `ServerErrors.FoldMessages` covers only the case where the response carries `messages`. The other branches set a general error text, which is presentation.
- `handleInputChange` is not modelled. It is plain field wiring. The change handlers' clearing of a field's error to `""`, and of the general error, is not modelled either. `validateForm` rebuilds the error map from scratch, so the clearing does not affect any modelled result.
- `Schedule.ChangeHours` takes a typed edit, not untyped `day`/`field` strings. The page only ever passes a known day key with a field of the matching type. An unknown key would make JavaScript add a new property, and that case is not modelled.
- PointDetails.RegisteredHoursRenderBack: holds only when every open day has a well-formed `HH:MM` opening and closing time. The auth register page does not check times, so a cleared time field is posted as `""` and shown as `:` (see `PointDetails.ColonlessTimeRendersChanged`).
- `PointDetails.Stored` assumes the backend returns each registered day's hours keyed by the day flag it received, in the order received. The backend is not part of this model. `PointDetails.RegisteredHoursRenderBack` relies on that assumption.
- JavaScript strings are sequences of UTF-16 code units. Here a string is a sequence of Unicode scalar values. `length` (the 6-character password minimum) and string order can differ only for characters outside the Basic Multilingual Plane.
- JSX rendering, CSS classes, routing, `alert` and `console` output are left out.
- The other pages of the repository hold no form logic and are left out. These are the login pages, the guides, about, main and catalogue pages, the map page and its Leaflet setup, and the navbar.
