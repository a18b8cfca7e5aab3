# brazilian-utils in Dafny

A model of the core of `brazilian-utils`, a Rust crate that validates, formats
and generates Brazilian identifiers and handles a few related tasks:

- boletos (bank payment slips), CEP postal codes, CNH driving licences, CNPJ
  company numbers, CPF taxpayer numbers, PIS numbers, RENAVAM vehicle
  registrations, voter ids and licence plates in the old and Mercosul formats;
- e-mail addresses, telephone numbers, legal nature codes and CNJ legal
  process numbers;
- spelling whole amounts out in Brazilian Portuguese and grouping digits with
  thousands separators;
- national and state holidays, including the Easter-based moveable feasts.

Each Rust module becomes one Dafny module of the same name.

- `Strings` holds the character and digit helpers the modules share.
- `Calendar` stands in for the date library: which triples are dates,
  day numbers, weekdays and moving a date by a few days.
- Modules ending in `Tests` restate the crate's own unit-test vectors as
  lemmas.
- Randomness and the current year become explicit parameters of the
  `generate` functions.
- A Rust panic is either returned as an absent result (`None`), as in
  `is_holiday`, or excluded by a named `requires` that states the condition
  under which the source does not panic, as in `Cnpj.HashDigit` and the
  legal process `generate`.
- The source's counting loops become methods proved against the functions
  that specify them: `Boleto.GetMod10`, `Boleto.GetMod11` and
  `Boleto.ParseDigitableLine`, `Cnh.CheckFirstVerificator` and
  `Cnh.CheckSecondVerificator`, `VoterId.CalculateVd1` and
  `VoterId.CalculateVd2`, and `Currency.FormatWithThousandsSeparator` use
  `while` loops; `LicensePlate.Fill` (the push loop of `generate`) uses a
  `for` loop; `LicensePlate.ConvertToMercosul` overwrites one character of
  its copy in place.
- Other source loops are stated as values: the loop over the three boleto
  fields (src/boleto.rs:127-139) is a quantifier over `PartialsToVerify`;
  the iterator sums of CNPJ, PIS and RENAVAM are the recursive
  `Strings.WeightedSum` (and `Renavam.ReversedSum` for RENAVAM's reversed
  order); the digit filters are the recursive
  `Strings.OnlyDigits` and `Strings.RemoveChars`; and the successive inserts
  that build the voter-id and legal-nature tables are constants.

## Model

| member | source | states |
|---|---|---|
| Strings.DigitValue | src/boleto.rs:98 | the value of an ASCII digit is below 10, and writing it back gives the same digit |
| Strings.DigitChar | src/cep.rs:161 | the numeral of a value below 10 is an ASCII digit |
| Strings.OnlyDigits | src/boleto.rs:48-50 | keeping the ASCII digits yields only digits, never lengthens, and leaves a string alone exactly when it is all digits |
| Strings.OnlyDigitsConcat | src/boleto.rs:48-50 | the digit filter distributes over concatenation |
| Strings.OnlyDigitsInsert | src/cnh.rs:28 | inserting non-digits anywhere leaves the filtered digits unchanged |
| Strings.RemoveChars | src/phone.rs:26-33 | deleting every occurrence of the listed characters leaves none of them and never lengthens |
| Strings.RemoveCharsCompose | src/phone.rs:27-32 | deleting one set of characters and then another is deleting their union |
| Strings.RemoveCharsIdempotent | src/pis.rs:30-32 | deleting the symbols a second time changes nothing |
| Strings.RemoveCharsKeeps | src/legal_process.rs:42-44 | a character survives exactly when it was in the text and is not one of the deleted ones |
| Strings.RemoveCharsDrop | src/legal_process.rs:42-44 | a deleted separator between two pieces leaves the two cleaned pieces side by side |
| Strings.WeightedSumRepeated | src/pis.rs:49-53 | a run of one repeated digit weighs that digit times the sum of the weights |
| Strings.Decimal | src/cep.rs:161 | `to_string` of a number is a non-empty digit string |
| Strings.DecimalValue | src/cep.rs:161 | the numeral reads back as the number, and it is the shortest such numeral |
| Strings.Numerals | src/cep.rs:161 | writing single-digit draws one by one gives a digit string whose digits are the draws |
| Strings.DecimalWidth | src/legal_process.rs:244 | a numeral has at most `w` digits exactly when the number is below 10 to the `w` |
| Strings.Pad | src/cnpj.rs:171-172 | `format!("{:0w}", n)` is a digit string |
| Strings.PadValue | src/cnpj.rs:171-172 | a zero-padded numeral reads back as the number, has at least `w` digits, and exactly `w` when the number fits |
| Strings.PadOfValue | src/legal_process.rs:244-251 | padding the value of a digit string to its own width gives that string back |
| Strings.ParseUnsigned | src/legal_process.rs:150-163 | parsing succeeds exactly when the text after an optional `+` is a non-empty digit string whose value is in range, and then gives that value |
| Strings.ParseUnsignedDigits | src/date_utils.rs:69-70 | a plain numeral in range parses to its value |
| Strings.ParseI32 | src/date_utils.rs:71 | parsing succeeds exactly when the text is `-` followed by a non-empty digit string of value at most 2^31, or an optional `+` followed by a non-empty digit string of value at most `i32::MAX`; the result is then minus, or plainly, that value (a bare `-`, a non-digit and an overflow all fail) |
| Strings.UpperChar | src/license_plate.rs:78 | uppercasing keeps letters letters and digits digits, makes ASCII letters upper case, and changes nothing but `a`..`z` |
| Strings.Upper | src/license_plate.rs:57 | uppercasing a string uppercases each character and keeps the length |
| Strings.UpperNoop | src/license_plate.rs:57 | text without lower-case ASCII letters is its own upper case |
| Strings.Trim | src/license_plate.rs:78 | the result is the slice of the input left once its leading and trailing whitespace is cut off: everything before and after it is whitespace, and it neither starts nor ends with whitespace |
| Strings.TrimmedUnique | src/license_plate.rs:78 | any slice of the input with only whitespace around it that neither starts nor ends with whitespace is what trimming gives, so `Trim` is the one such slice |
| Strings.TrimNoop | src/license_plate.rs:78 | text that neither starts nor ends with whitespace is not changed by trimming |
| Strings.TrimUpper | src/license_plate.rs:105 | trimming commutes with uppercasing, and uppercasing twice is uppercasing once |
| Strings.Reverse | src/boleto.rs:61-63 | the reversed string has the same length and holds character `n-1-i` at position `i` |
| Strings.ReverseInvolution | src/boleto.rs:61-63 | reversing twice gives the string back |
| Strings.ReverseConcat | src/boleto.rs:61-63 | the reverse of a concatenation is the reversed pieces in swapped order |
| Strings.FirstIndex | src/email.rs:65 | the index found holds the character, no earlier index does, and there is none exactly when the character is absent |
| Strings.LastIndex | src/email.rs:65 | the index found holds the character, no later index does, and there is none exactly when the character is absent |
| Strings.Split | src/date_utils.rs:64 | `split` gives at least one piece, and no piece contains the separator |
| Strings.SplitJoin | src/email.rs:65 | joining the pieces with the separator gives the text back |
| Strings.SplitOnce | src/email.rs:65-68 | a text with exactly one separator splits into the text before it and the text after it |
| Strings.SplitPrefix | src/date_utils.rs:64 | a separator-free piece followed by the separator comes off as the first piece |
| Strings.SplitThree | src/date_utils.rs:64-67 | three separator-free pieces joined by two separators split back into those three pieces |
| Strings.NoSeparator | src/date_utils.rs:64-67 | a text without the separator is a single piece |
| Strings.SplitTwice | src/email.rs:65-68 | two separators give more than two pieces |
| Strings.DigitOr0 | src/boleto.rs:98 | a decimal digit maps to its value; anything else maps to 0, and the result is always below 10; `calculate_vd1` and `calculate_vd2` use it for their sums |
| Boleto.Mod10Term | src/boleto.rs:99-107 | one field digit's contribution, weight 2 or 1 by position and the tens digit folded back in, is below 10 |
| Boleto.Mod10 | src/boleto.rs:93-115 | the mod-10 check digit is below 10 and brings the weighted sum of the reversed field to a multiple of 10 |
| Boleto.GetMod10 | src/boleto.rs:93-115 | the loop over the reversed field with alternating weights 2 and 1 returns the mod-10 check digit |
| Boleto.Mod11 | src/boleto.rs:176-198 | the mod-11 digit lies in 1..9; when the remainder is 2 or more it completes the weighted sum to a multiple of 11, and otherwise it is 1 |
| Boleto.GetMod11 | src/boleto.rs:176-198 | the loop with weights 2, 3, ..., 9 cycling back to 2 returns the mod-11 digit |
| Boleto.Barcode | src/boleto.rs:21-27 | the 44-digit barcode is the line's slices 0..4, 32..47, 4..9, 10..20 and 21..31 in that order |
| Boleto.ParseDigitableLine | src/boleto.rs:150-158 | appending the five slices to an empty string gives the barcode |
| Boleto.BarcodeCheckDigit | src/boleto.rs:209-224 | the general check digit at barcode index 4 is line digit 32, and the barcode without it is the other 43 line digits in barcode order |
| Boleto.IsValidSpelledOut | src/boleto.rs:255-267 | a line is valid exactly when its digits number 47, each of the three fields' check digits equals its mod-10 digit, and digit 32 equals the mod-11 digit of the rest of the barcode |
| Boleto.IsValidIgnoresNonDigits | src/boleto.rs:48-50 | inserting non-digit characters anywhere never changes the verdict |
| Boleto.IsValidNeedsLength | src/boleto.rs:74-76 | a line whose digits do not number 47 is rejected |
| Boleto.Mod10TermInjective | src/boleto.rs:99-107 | two different digits at the same position contribute different terms |
| Boleto.Mod10SumUpdate | src/boleto.rs:97-108 | changing one character moves the mod-10 sum by the difference of its two terms, or not at all when it is outside the summed prefix |
| Boleto.ReverseUpdate | src/boleto.rs:61-63 | reversing a string with one character changed is the reversed string with the mirrored position changed |
| Boleto.Mod10DetectsSingleChange | src/boleto.rs:93-115 | changing any one digit of a field changes its mod-10 check digit |
| Boleto.SliceUpdate | src/boleto.rs:126-139 | a slice of a line with one character changed is the slice with that character changed when the position is inside it, and unchanged otherwise |
| Boleto.FieldBroken | src/boleto.rs:126-139 | a field whose check digit matched stops matching once any one of its digits or the check digit itself changes |
| Boleto.SingleDigitErrorDetected | src/boleto.rs:255-267 | any single wrong digit among the first 32 digits of a valid line makes it invalid |
| Boleto.IsValid | src/boleto.rs:255-267 | the digits of the line number 47, and the three field checks and the general check pass; IsValidSpelledOut states it digit by digit |
| BoletoTests.Mod11SumShift | src/boleto.rs:181-189 | the mod-11 weights repeat every eight positions, so the weighted sum of a text splits at any multiple of eight |
| BoletoTests.Mod11SumAppend | src/boleto.rs:181-189 | the weighted sum of a text whose first part has a multiple of eight characters is the sum over its parts |
| BoletoTests.FirstFieldCheck | src/boleto.rs:318-323 | `get_mod10("001900000")` is 9 |
| BoletoTests.SecondFieldCheck | src/boleto.rs:326-330 | the second field of the test line has check digit 1 |
| BoletoTests.ThirdFieldCheck | src/boleto.rs:326-330 | the third field of the test line has check digit 4 |
| BoletoTests.GeneralCheck | src/boleto.rs:347-351 | the 43 barcode digits of the test line have mod-11 digit 6 |
| BoletoTests.TestLine | src/boleto.rs:380-383 | a line of the test digits with any first check digit and any general check digit is valid exactly when they are 9 and 6 |
| BoletoTests.ValidLine | src/boleto.rs:380-383 | the line 00190000090114971860168524522114675860000102656 is valid |
| BoletoTests.RejectedFirstCheckDigit | src/boleto.rs:370-373 | the same line with 2 as the first check digit is rejected |
| BoletoTests.RejectedGeneralCheckDigit | src/boleto.rs:375-378 | the same line with 9 as the general check digit is rejected |
| BoletoTests.ValidFormattedLine | src/boleto.rs:385-388 | the spaced and dotted form of the line has the same digits and is valid |
| Cep.RemoveSymbols | src/cep.rs:77-79 | the result is the input with every `.` and `-` deleted and the other characters kept in order; a character survives exactly when it was in the input and is neither symbol |
| Cep.RemoveSymbolsIdempotent | src/cep.rs:77-79 | removing symbols twice removes nothing more |
| Cep.RemoveSymbolsKeepsDigits | src/cep.rs:77-79 | dots and dashes before and after a valid CEP are all removed, leaving the CEP |
| Cep.AllSymbols | src/cep.rs:440-444 | a text made only of dots and dashes cleans to the empty string |
| Cep.FormatCep | src/cep.rs:102-108 | the result is present exactly when the CEP is valid; it is the first five digits, a dash and the last three; removing symbols gives the CEP back; the formatted text is no longer a valid CEP |
| Cep.IsValid | src/cep.rs:140-142 | eight characters, all ASCII digits, with no cleaning; FormatCep proves it is exactly what formatting needs |
| Cep.DashDropped | src/cep.rs:102-108 | removing symbols from the formatted CEP gives the CEP back |
| Cep.FormatInjective | src/cep.rs:102-108 | two CEPs with the same formatted text are equal |
| Cep.FormattedNeedsCleaning | src/cep.rs:459-463 | formatting a formatted CEP again is rejected, while formatting it after removing its symbols gives the same formatted text |
| Cep.Generate | src/cep.rs:159-162 | eight single-digit draws give a valid CEP whose digits are the draws |
| Cep.GenerateComplete | src/cep.rs:159-162 | every valid CEP is generated by the draws read off its own digits |
| CepTests.DashRemoved | src/cep.rs:362 | "01310-200" cleans to "01310200" |
| CepTests.OnlySymbolsRemoved | src/cep.rs:369 | "...---..." cleans to the empty string |
| CepTests.Formatted | src/cep.rs:395 | "01310200" formats to "01310-200" |
| CepTests.FormattedPieces | src/cep.rs:103-104 | the pieces of "01310200" joined by a dash give "01310-200" |
| CepTests.RejectedInputs | src/cep.rs:401-404 | "12345", "013102009", "1234567-" and "01310-200" are not formatted |
| Cnh.DigitValues | src/cnh.rs:47-50 | the value list has one entry per digit, each the digit's value and below 10 |
| Cnh.Clamp | src/cnh.rs:72 | a remainder of at most 9 is kept and a larger one becomes 0 |
| Cnh.FirstVerificator | src/cnh.rs:65-75 | the first verification digit is below 10 |
| Cnh.SecondVerificator | src/cnh.rs:78-103 | the second verification digit is below 10 |
| Cnh.CheckFirstVerificator | src/cnh.rs:65-75 | the loop over the first nine digits with weights 9 down to 1 accepts exactly when the given digit is the clamped remainder mod 11 |
| Cnh.CheckSecondVerificator | src/cnh.rs:78-103 | the loop with weights 1 up to 9 accepts exactly when the given digit is the second verification digit, shifted when the first digit given exceeds 9 |
| Cnh.IsValidCnh | src/cnh.rs:26-62 | the method returns true exactly when the input's digits satisfy the validity rule |
| Cnh.Valid | src/cnh.rs:26-62 | eleven digits once the others are dropped, not all equal, each check digit as computed; IsValidCnh proves the method decides it |
| Cnh.ValidSpelledOut | src/cnh.rs:26-62 | a CNH is valid exactly when it has 11 digits, they are not all equal, and digits 10 and 11 are the clamped remainders of the two weighted sums |
| Cnh.ShiftSubtractsTwo | src/cnh.rs:90-96 | the shift taken when the first digit given exceeds 9 subtracts 2 modulo 11 |
| Cnh.ValidIgnoresNonDigits | src/cnh.rs:28 | symbols and letters anywhere in the input never change the verdict |
| Cnh.ValidDependsOnDigits | src/cnh.rs:28 | two inputs with the same digits get the same verdict |
| Cnh.ValidGrouped | src/cnh.rs:167-173 | a valid number grouped as 3-3-3-2 digits with any non-digit separator stays valid |
| Cnh.GroupedDigits | src/cnh.rs:28 | a grouping separator that is not a digit is filtered out |
| CnhTests.ValidSampleShape | src/cnh.rs:134 | "09770304734" is all digits and not all equal |
| CnhTests.ValidSampleValues | src/cnh.rs:147-149 | the digit values of "09770304734" are the sample the verificator tests use |
| CnhTests.ValidSampleDigits | src/cnh.rs:147-164 | the verification digits of "09770304734" are 3 and 4 |
| CnhTests.ValidExample | src/cnh.rs:134 | "09770304734" is valid |
| CnhTests.RejectedSampleShape | src/cnh.rs:138 | "12345678901" is all digits |
| CnhTests.RejectedSampleValues | src/cnh.rs:138 | the digit values of "12345678901" are its digits |
| CnhTests.RejectedSampleDigits | src/cnh.rs:138 | the verification digits of "12345678901" are 0 and 0 |
| CnhTests.RejectedExample | src/cnh.rs:138 | "12345678901" is rejected |
| CnhTests.RejectedShort | src/cnh.rs:125-141 | the empty string and nine digits are rejected |
| CnhTests.RejectedRepeated | src/cnh.rs:112 | "22222222222" is rejected |
| Cnpj.RemoveSymbols | src/cnpj.rs:29-31 | the result is the input with every `.`, `/` and `-` deleted and the other characters kept in order; a character survives exactly when it was in the input and is none of the three |
| Cnpj.Weights | src/cnpj.rs:201-205 | the weights for the first check digit number 12 and those for the second number 13 |
| Cnpj.HashDigit | src/cnpj.rs:200-220 | the check digit is below 10; it is 0 when the weighted sum leaves remainder 0 or 1 mod 11, and otherwise it completes the sum to a multiple of 11 |
| Cnpj.ComputeChecksum | src/cnpj.rs:243-249 | the checksum is two digits, the first being the check digit for position 13 of the base |
| Cnpj.ChecksumDigits | src/cnpj.rs:243-249 | a 12-digit base followed by its checksum is 14 digits whose digits 13 and 14 are the ones `validate` recomputes |
| Cnpj.RepeatedBaseCheckDiffers | src/cnpj.rs:101-103 | a base of one repeated non-zero digit gets a first check digit different from that digit |
| Cnpj.ChecksumCompletes | src/cnpj.rs:95-111 | appending the checksum makes a 12-digit base a valid CNPJ exactly when the base is not all zeros |
| Cnpj.IsValid | src/cnpj.rs:95-137 | fourteen ASCII digits without cleaning, not all equal, both check digits right; ChecksumCompletes and RepeatedRejected prove what it accepts |
| Cnpj.ZerosCompleteToZeros | src/cnpj.rs:362 | the all-zero base completes to fourteen zeros, which the all-equal test rejects |
| Cnpj.RepeatedCompletesBroken | src/cnpj.rs:101-103 | a base of one repeated non-zero digit never completes to an all-equal CNPJ |
| Cnpj.NormalizeBranch | src/cnpj.rs:165-169 | the branch becomes 1 when absent, is taken mod 10000 otherwise, with 0 replaced by 1, so it always lies in 1..9999 |
| Cnpj.Generate | src/cnpj.rs:162-177 | the generated CNPJ is valid and has 14 digits; its first eight digits denote the drawn base and the next four are the normalised branch padded to four digits |
| Cnpj.GenerateBaseNotZero | src/cnpj.rs:171-173 | a base built with a non-zero branch is never all zeros |
| Cnpj.CheckDigitsDetermined | src/cnpj.rs:106-110 | two CNPJs with correct check digits that agree on their first 12 digits are equal |
| Cnpj.GenerateComplete | src/cnpj.rs:162-177 | every valid CNPJ whose branch is not "0000" is what `generate` gives for its own branch and base |
| Cnpj.GeneratePrefix | src/cnpj.rs:171-173 | generating from a CNPJ's base and branch reproduces its first twelve digits |
| Cnpj.BranchPadded | src/cnpj.rs:165-171 | a non-zero four-digit branch survives normalisation and padding unchanged |
| Cnpj.GenerateBranchWrap | src/cnpj.rs:387-402 | branch 0, branch 10000 and no branch all give the branch field "0001" |
| Cnpj.FormatCnpj | src/cnpj.rs:54-67 | the result is present exactly when the CNPJ is valid; it is the mask "XX.XXX.XXX/XXXX-XX": dots at 2 and 6, a slash at 10, a dash at 15, the digit groups in order between them, and removing symbols gives the CNPJ back |
| Cnpj.FormatRoundTrip | src/cnpj.rs:59-66 | removing the symbols from the "XX.XXX.XXX/XXXX-XX" layout gives the 14 digits back |
| Cnpj.RepeatedRejected | src/cnpj.rs:101-103 | every string of one repeated character is rejected |
| CnpjTests.FirstDigitExample | src/cnpj.rs:357 | the first check digit for base "123456789012" is 3 |
| CnpjTests.SecondDigitExample | src/cnpj.rs:364 | the second check digit for "1234567890123" is 0 |
| CnpjTests.ChecksumExample | src/cnpj.rs:364 | the checksum of "123456789012" is "30" |
| CnpjTests.ValidFormatExample | src/cnpj.rs:295 | "03560714000142" is a valid CNPJ, with check digits 4 and 2 |
| CnpjTests.FormatExample | src/cnpj.rs:271-274 | "03560714000142" formats to "03.560.714/0001-42" |
| Cpf.IsValid | src/cpf.rs:20-26 | an input is valid exactly when it has 11 characters and is not one ASCII digit repeated |
| Cpf.IsBlacklisted | src/cpf.rs:28-30 | membership in the list of repeated-digit strings; BlacklistIsRepeatedDigits proves which eleven-character strings are in it |
| Cpf.Repeat11 | src/cpf.rs:7-16 | eleven copies of a character form an 11-character string of one repeated character |
| Cpf.BlacklistIsRepeatedDigits | src/cpf.rs:5-18 | among 11-character inputs, the blacklisted ones are exactly the strings of one repeated ASCII digit |
| Cpf.RepeatedIsBlacklisted | src/cpf.rs:28-30 | every 11-character string of one repeated digit is on the blacklist |
| Cpf.BlacklistEntryRepeated | src/cpf.rs:7-16 | every 11-character blacklist entry is one digit repeated |
| Cpf.OuterEntriesNeverMatch | src/cpf.rs:6-17 | an input of the right length can only match the ten 11-character entries, never "000" or "999999999999" |
| CpfTests.ValidExamples | src/cpf.rs:37-48 | "02287813020" and "02915205027" are accepted, and "00000000000" and "11111111111" are rejected |
| Currency.ScaleUnit | src/currency.rs:73-167 | every large scale unit (million, billion, trillion, quadrillion) is a multiple of a million |
| Currency.ScaleOf | src/currency.rs:73-167 | the scale tried first that fits is the largest unit not above the number, and the count of that unit is below a million |
| Currency.RenderConcat | src/currency.rs:63-239 | writing out two token runs one after the other puts the gap the second run calls for between them |
| Currency.Joined | src/currency.rs:87-95 | writing a connector between two runs puts " e " or ", " between their words |
| Currency.RunConcat | src/currency.rs:63-239 | reading two token runs one after the other is reading the second from where the first left off |
| Currency.RunOne | src/currency.rs:63-239 | reading one token takes one reading step |
| Currency.Tokens | src/currency.rs:63-239 | the tokens of a number are never empty and never start with a comma, and those of a positive number do not start with "menos" |
| Currency.ThousandsConnector | src/currency.rs:184-188 | the connector after the thousands is "e" or a comma |
| Currency.ScaleConnector | src/currency.rs:87 | the connector after a large scale is "e" or a comma |
| Currency.ThousandsHead | src/currency.rs:173-177 | the words for a count of thousands are never empty and never start with a comma or "menos" |
| Currency.ScaleHead | src/currency.rs:77-81 | the words for a count of a large scale are never empty and never start with a comma or "menos" |
| Currency.ScaleTokens | src/currency.rs:73-167 | the tokens of a number of a million or more are never empty and never start with a comma or "menos" |
| Currency.WordsDenote | src/currency.rs:63-239 | `number_to_words` writes out the number's tokens, and reading those tokens gives the number back, for every `i64` except the minimum |
| Currency.NumberToWords | src/currency.rs:63-239 | the Portuguese words of an `i64`; WordsDenote proves they spell tokens that evaluate back to the number |
| Currency.WordsInjective | src/currency.rs:63-239 | two numbers with the same tokens are equal, since the tokens evaluate back to the number |
| Currency.TokensDenote | src/currency.rs:63-239 | reading a number's tokens gives the number back |
| Currency.NegativeTokens | src/currency.rs:68-70 | a negative number is "menos" followed by the words of its negation, and reads back as the negation of what those words denote |
| Currency.RunJoined | src/currency.rs:87-95 | a connector between two runs does not change how they read |
| Currency.RunTens | src/currency.rs:216-238 | the words of a number below a hundred add it to the current group |
| Currency.RunSmall | src/currency.rs:198-213 | the words of a number below a thousand add it to the current group |
| Currency.RunBelowMillion | src/currency.rs:169-238 | the words of a number below a million, read from an empty group, leave that number as the group |
| Currency.RunThousands | src/currency.rs:169-195 | the words of a number between a thousand and a million read back as that number |
| Currency.ThousandsShape | src/currency.rs:169-195 | a whole number of thousands is its count and "mil"; otherwise the remainder follows after its connector |
| Currency.ThousandsText | src/currency.rs:173-177 | the count of thousands and "mil" leave a thousand times the count as the current group |
| Currency.RunPositive | src/currency.rs:63-239 | for a positive number the millions and up go to the total and what is below a million stays in the current group |
| Currency.RunScale | src/currency.rs:73-167 | a number of a million or more is written as its scale block, which moves everything from a million up into the total |
| Currency.ScaleSplit | src/currency.rs:74-75 | taking out the count of a scale unit leaves the part below a million unchanged |
| Currency.ScaleText | src/currency.rs:77-81 | the count and the scale name move the count times the unit into the total |
| Currency.ModOfMultiple | src/currency.rs:74-75 | adding a multiple of a scale unit does not change the part below a million |
| Currency.WordsSpellTokens | src/currency.rs:63-239 | the words are the tokens written out |
| Currency.TensSpellTokens | src/currency.rs:216-225 | the words of a number from 20 to 99 are its tokens written out |
| Currency.HundredsSpellTokens | src/currency.rs:198-213 | the words of a number from 100 to 999 are its tokens written out |
| Currency.ThousandsSpellTokens | src/currency.rs:169-195 | the words of a number from 1000 to 999999 are its tokens written out |
| Currency.ScaleSpellsTokens | src/currency.rs:73-167 | the words of a number of a million or more are its tokens written out |
| Currency.GroupedDigits | src/currency.rs:301-321 | removing the dots from the grouped text gives the plain numeral, and the text starts with a non-zero digit |
| Currency.Grouped | src/currency.rs:301-321 | the numeral with a dot before every group of three digits from the right; GroupedDigits proves removing the dots gives the numeral |
| Currency.LeadingDigit | src/currency.rs:309-317 | the numeral of a positive number does not start with 0 |
| Currency.FormatWithThousandsSeparator | src/currency.rs:301-321 | zero gives "0"; a positive number gives its numeral grouped by thousands with dots; a negative number skips the loop and gives the empty text |
| Currency.PushOne | src/currency.rs:309-317 | one turn of the loop pushes a dot when three digits are already in the group, then the next digit |
| Currency.PushedReversed | src/currency.rs:319-320 | the pushed characters reversed are the numeral grouped by thousands |
| Currency.PushedGroup | src/currency.rs:309-317 | from a fresh count, three digits and then a dot are pushed before the rest |
| Currency.ReversedGroup | src/currency.rs:319 | reversing three digits, a dot and the rest puts the reversed rest, the dot and the three digits in order |
| Currency.PushedSmall | src/currency.rs:309-317 | with room left in the group, only the digits are pushed, and reversed they are the plain numeral |
| CurrencyTests.TwentyFive | src/currency.rs:484 | 25 is "vinte e cinco" |
| CurrencyTests.OneHundredAndOne | src/currency.rs:491 | 101 is "cento e um" |
| CurrencyTests.OneThousandOneHundredEleven | src/currency.rs:501 | 1111 is "mil, cento e onze" |
| CurrencyTests.TwoThousandFiveHundred | src/currency.rs:503 | 2500 is "dois mil e quinhentos" |
| CurrencyTests.OneHundredThousand | src/currency.rs:505 | 100000 is "cem mil" |
| CurrencyTests.TwoMillion | src/currency.rs:511 | 2000000 is "dois milhões" |
| CurrencyTests.MinusFortyTwo | src/currency.rs:521 | -42 is "menos quarenta e dois" |
| CurrencyTests.TwoThousandTwentyFour | src/date_utils.rs:424 | 2024 is "dois mil e vinte e quatro" |
| CurrencyTests.NineteenNinety | src/date_utils.rs:428 | 1990 is "mil, novecentos e noventa" |
| CurrencyTests.TwoThousand | src/currency.rs:502 | 2000 is "dois mil" |
| CurrencyTests.Fifteen | src/currency.rs:482 | 15 is "quinze" |
| Calendar.DaysInMonth | src/date_utils.rs:74 | a month has 28 to 31 days, and 29 exactly for February of a leap year |
| Calendar.IsLeapYear | src/date_utils.rs:74 | the Gregorian leap rule the date library uses; DaysInMonth proves February has 29 days exactly then |
| Calendar.ValidDate | src/date_utils.rs:74 | `from_ymd_opt` succeeds: a year in the library's range, a month 1 to 12 and a day within the month; ReadFields proves `convert_date_to_text` relies on it |
| Calendar.DayNumber | src/date_utils.rs:217 | consecutive numbers for consecutive days; DayNumberMonotone and DayNumberInjective prove it orders and tells apart valid dates |
| Calendar.MonthStep | src/date_utils.rs:217 | each month's day count starts where the previous month's ends |
| Calendar.YearLength | src/date_utils.rs:217 | a year has 366 days when it is a leap year and 365 otherwise |
| Calendar.NextYear | src/date_utils.rs:217 | the days before the next year are the days before this one plus this year's length |
| Calendar.DaysBeforeYearMonotone | src/date_utils.rs:217 | an earlier year ends no later than a later year begins |
| Calendar.DaysBeforeMonthMonotone | src/date_utils.rs:217 | an earlier month ends no later than a later month of the same year begins |
| Calendar.DayWithinYear | src/date_utils.rs:217 | a valid date's day number lies within its year |
| Calendar.DayNumberMonotone | src/date_utils.rs:218 | day numbers follow calendar order |
| Calendar.DayNumberInjective | src/date_utils.rs:218 | two valid dates with the same day number are the same date |
| Calendar.NumDaysFromSunday | src/date_utils.rs:313-316 | the weekday counted from Sunday lies in 0..6 |
| Calendar.WeekdayFromSunday | src/date_utils.rs:216-218 | a date from a week before to two weeks after a Sunday has the weekday of its distance from that Sunday |
| Calendar.Shift | src/date_utils.rs:217 | moving a valid date by up to four weeks within its year gives a valid date whose day number differs by exactly that amount |
| Calendar.ShiftUnique | src/date_utils.rs:217-218 | a date equals the shifted date exactly when its day number is the base's plus the shift |
| Calendar.DaysUntilSunday | src/date_utils.rs:313-317 | the days to the next Sunday are 0 on a Sunday and `7 - weekday` otherwise, always below 7 |
| Calendar.FirstSundayFrom | src/date_utils.rs:312-319 | the first Sunday from a date is a valid Sunday of the same year less than a week on, in the same month unless the month ends within the week, and then early in the next month |
| Calendar.FirstSundayEarliest | src/date_utils.rs:312-319 | no date between the base and the first Sunday from it is a Sunday |
| DateUtils.MonthName | src/date_utils.rs:15-31 | a month has a non-empty name exactly when it is 1 to 12 |
| DateUtils.MonthNameInjective | src/date_utils.rs:15-31 | different months have different names |
| DateUtils.TruncSplit | src/date_utils.rs:106-119 | Rust's truncating quotient and remainder still split the dividend, and the remainder has the dividend's sign and is smaller than the divisor |
| DateUtils.ComputusOf | src/date_utils.rs:106-117 | with floor division the computus gives `h` in 0..29, `l` in 0..6 and `m` in 0..1 |
| DateUtils.PaschalOffset | src/date_utils.rs:118-119 | Easter lies 0 to 34 days after 22 March |
| DateUtils.Easter | src/date_utils.rs:105-122 | for every year the date library accepts, Easter is a valid Sunday of that year between 22 March and 25 April, the paschal offset after 22 March |
| DateUtils.MarchStart | src/date_utils.rs:118 | the day before 1 March is counted with the leap rules folded into `y/4 - y/100 + y/400` |
| DateUtils.CenturySplit | src/date_utils.rs:107-115 | splitting a year into centuries, quarters of centuries and the rest gives `y/4`, `y/100` and `y/400` |
| DateUtils.EasterIsSunday | src/date_utils.rs:116-119 | 22 March plus the paschal offset falls on a Sunday |
| DateUtils.ComputusAgrees | src/date_utils.rs:106-117 | from year 0 on, the truncating computus as written equals the floor one |
| DateUtils.EasterAsWrittenAgrees | src/date_utils.rs:105-122 | from year 0 on, `calculate_easter` as written returns Easter Sunday |
| DateUtils.EasterAsWrittenPanics | src/date_utils.rs:118-121 | for year -2 the truncating formula gives month 2, day 31, so `from_ymd_opt` fails and `unwrap` panics |
| DateUtils.GoodFriday | src/date_utils.rs:213-218 | Good Friday is a valid Friday of the same year, two days before Easter, between 20 March and 23 April |
| DateUtils.GoodFridayUnique | src/date_utils.rs:217-218 | a date is Good Friday exactly when it lies two days before Easter |
| DateUtils.ParseUf | src/date_utils.rs:162-172 | a code that parses names the unit whose code it is |
| DateUtils.ParseUfCode | src/date_utils.rs:162-166 | every unit's code parses back to that unit |
| DateUtils.ParseUfValid | src/date_utils.rs:169-173 | a code parses exactly when it is one of the 27 listed codes |
| DateUtils.Penha | src/date_utils.rs:276-280 | Our Lady of Penha is a valid Monday of the same year, eight days after Easter Sunday |
| DateUtils.PernambucoFirstSunday | src/date_utils.rs:309-324 | the Pernambuco Revolution day is a Sunday in the first seven days of March, and no earlier day of that March is a Sunday |
| DateUtils.PernambucoRevolutionIff | src/date_utils.rs:309-324 | from 2008 on, a date is the Pernambuco Revolution day exactly when it is the first Sunday from 1 March |
| DateUtils.SantaCatarinaDayIff | src/date_utils.rs:356-375 | from 2005 on, a date is Santa Catarina's day exactly when it is the first Sunday from 11 August, which is a Sunday from 11 to 17 August |
| DateUtils.SaintCatherineSunday | src/date_utils.rs:378-388 | the first Sunday from 25 November is a Sunday of the same year from 25 November to 1 December |
| DateUtils.SaintCatherineEveryYear | src/date_utils.rs:377-394 | in every year from 1999 to 2030 except 2004, the corrected rule holds on the first Sunday from 25 November and on no other date |
| DateUtils.SaintCatherineAsWrittenAgrees | src/date_utils.rs:377-394 | every day the rule as written finds is a corrected day, and the two agree whenever the Sunday falls in November |
| DateUtils.SaintCatherineAsWrittenMisses | src/date_utils.rs:379 | when the Sunday falls on 1 December, the rule as written holds on no day of the year |
| DateUtils.SaintCatherine2024 | src/date_utils.rs:377-394 | in 2024 the Sunday is 1 December, which the corrected rule accepts, while the rule as written accepts no day of 2024 |
| DateUtils.IsHoliday | src/date_utils.rs:161-192 | `is_holiday` as written has no answer exactly when a unit is named whose code is not one of the 27, or when `is_national_holiday` panics; a `false` answer means the date is no national holiday |
| DateUtils.NationalHolidayEverywhere | src/date_utils.rs:180-182 | a date that `is_national_holiday` accepts is a holiday whichever valid unit is named |
| DateUtils.HolidayWithUnit | src/date_utils.rs:169-191 | naming a valid unit gives an answer exactly when asking without one does, and never takes a holiday away |
| DateUtils.StateHolidayCounts | src/date_utils.rs:185-189 | a unit's own holiday counts when that unit is named; state holidays start in 1996, where Easter never panics |
| DateUtils.NoStateHolidaysBefore1996 | src/date_utils.rs:223-226 | before 1996, naming a unit changes nothing |
| DateUtils.NationalOnly | src/date_utils.rs:195-219 | without a unit and from year 0 on, a date is a holiday exactly when it is a fixed national holiday or lies two days before Easter; there is no answer only for a date that is not a fixed holiday in a year where `calculate_easter` panics |
| DateUtils.IsNationalHolidayAsWritten | src/date_utils.rs:195-219 | `is_national_holiday` as written has no answer exactly for a date that is not a fixed holiday in a year where `calculate_easter` panics |
| DateUtils.NationalAsWrittenAgrees | src/date_utils.rs:195-219 | from year 0 on, `is_national_holiday` as written always answers, and answers whether the date is a fixed holiday or Good Friday |
| DateUtils.IsHolidayCorrected | src/date_utils.rs:161-192 | with floor-division Easter and the corrected Saint Catherine rule, there is no answer exactly when a unit is named whose code is not one of the 27 |
| DateUtils.StateHolidayCorrectedAgrees | src/date_utils.rs:355-396 | the corrected state rules keep every state holiday as written, and agree with them on every date except Santa Catarina's 1 December |
| DateUtils.IsHolidayAgrees | src/date_utils.rs:161-192 | from year 0 on, `is_holiday` as written and the corrected one give the same answer, except for Santa Catarina on 1 December |
| DateUtils.HolidayPanics | src/date_utils.rs:214-215 | in year -2 `is_holiday` as written has no answer for a date that is not a fixed holiday, while the corrected one answers |
| DateUtils.SaintCatherineHoliday2024 | src/date_utils.rs:377-393 | `is_holiday` as written says 1 December 2024, Saint Catherine's Sunday, is no holiday in SC |
| DateUtils.SaintCatherineHolidayCorrected2024 | src/date_utils.rs:377-393 | with the corrected rule, 1 December 2024 is a holiday in SC |
| DateUtils.SaintCatherineHolidayCorrected | src/date_utils.rs:377-393 | with the corrected rule, every year's Saint Catherine Sunday from 1999 to 2030 except 2004 is a holiday in SC |
| DateUtils.NotNationalDecemberFirst | src/date_utils.rs:195-219 | from year 0 on, 1 December is no national holiday |
| DateUtils.SaintCatherineDecember2024 | src/date_utils.rs:355-396 | the corrected SC rules accept 1 December 2024 |
| DateUtils.NoSantaCatarinaDecember | src/date_utils.rs:355-396 | as written, Santa Catarina has no holiday of its own in December |
| DateUtils.SaoPauloHoliday | src/date_utils.rs:401-403 | São Paulo's own holiday is 9 July, from 1997 |
| DateUtils.StateDecides | src/date_utils.rs:180-191 | from year 0 on, a date that is no national holiday is a holiday exactly when it is one of the named unit's own |
| DateUtils.FixedNationalHoliday | src/date_utils.rs:197-207 | the eight fixed national holidays with the years each applies in; NationalOnly proves they are holidays without a unit |
| DateUtils.IsNationalHoliday | src/date_utils.rs:195-219 | a fixed holiday or Good Friday; NationalAsWrittenAgrees proves it is what `is_national_holiday` answers from year 0 on |
| DateUtils.IsStateHoliday | src/date_utils.rs:222-414 | each unit's own holidays from 1996 on, with Saint Catherine's day looked for only in November; StateHolidayCounts proves each counts for its unit |
| DateUtils.IsStateHolidayCorrected | src/date_utils.rs:355-396 | the state holidays with Saint Catherine's day found even on 1 December; StateHolidayCorrectedAgrees relates it to the rules as written |
| DateUtils.PernambucoRevolution | src/date_utils.rs:309-324 | the first Sunday of March from 2008; PernambucoFirstSunday and PernambucoRevolutionIff prove it |
| DateUtils.SantaCatarinaDay | src/date_utils.rs:356-375 | the first Sunday from 11 August from 2005, 11 August in 2004; SantaCatarinaDayIff proves it |
| DateUtils.SaintCatherineAsWritten | src/date_utils.rs:377-393 | the rule as written; SaintCatherineAsWrittenAgrees and SaintCatherineAsWrittenMisses compare it with the corrected one |
| DateUtils.SaintCatherine | src/date_utils.rs:377-393 | the corrected rule; SaintCatherineEveryYear proves it holds on exactly one Sunday each year |
| DateUtils.CalculateEasterAsWritten | src/date_utils.rs:105-122 | `calculate_easter` with truncating division, absent where `unwrap` panics; EasterAsWrittenAgrees and EasterAsWrittenPanics state when it answers |
| DateUtils.EasterAsWritten | src/date_utils.rs:118-119 | the month and day before `from_ymd_opt`; EasterMonthDayAgrees proves they are Easter's from year 0 on |
| DateUtils.DayText | src/date_utils.rs:78-88 | "Primeiro" for day 1, otherwise the capitalised words of the day; the DateUtilsTests lemmas check days 15 and 25 |
| DateUtils.DateText | src/date_utils.rs:78-93 | the day, month and year in words joined by " de "; DateTextYear proves the year words denote the year |
| DateUtils.Capitalize | src/date_utils.rs:84-86 | capitalising keeps the length |
| DateUtils.ReadDate | src/date_utils.rs:64-76 | a date is read only from exactly three `/`-separated fields that form a valid date |
| DateUtils.ConvertDateToText | src/date_utils.rs:62-94 | a text converts exactly when it reads as a valid date |
| DateUtils.PaddedParses | src/date_utils.rs:69-70 | a day or month written with two digits has no slash and parses back to its value as a `u32` |
| DateUtils.YearParses | src/date_utils.rs:71 | the numeral of any `i32` year has no slash and parses back to the year |
| DateUtils.ReadFields | src/date_utils.rs:64-76 | day, month and year written as numerals read back as that date when it is valid, and as nothing otherwise |
| DateUtils.ReadDateNumeral | src/date_utils.rs:64-76 | reading a valid date's `dd/mm/yyyy` numeral gives the date back |
| DateUtils.ConvertDateNumeral | src/date_utils.rs:62-94 | every valid date's numeral converts to its day, month and year in words |
| DateUtils.DateTextYear | src/date_utils.rs:91-93 | the year words are the spelling of tokens that denote the year |
| DateUtilsTests.MonthNames | src/date_utils.rs:528-533 | months 1, 8 and 12 are "janeiro", "agosto" and "dezembro", and 0 and 13 have no name |
| DateUtilsTests.Easter2023 | src/date_utils.rs:521 | Easter 2023 is 9 April |
| DateUtilsTests.Easter2024 | src/date_utils.rs:518 | Easter 2024 is 31 March |
| DateUtilsTests.Easter2025 | src/date_utils.rs:524 | Easter 2025 is 20 April |
| DateUtilsTests.GoodFridays | src/date_utils.rs:501-513 | Good Friday is 29 March 2024 and 7 April 2023, and both are holidays |
| DateUtilsTests.NationalDays | src/date_utils.rs:445-469 | 1 January, 7 September and 25 December 2024 are holidays and 2 January 2024 is not |
| DateUtilsTests.BahiaIndependence | src/date_utils.rs:474-478 | 2 July 2024 is a holiday in BA |
| DateUtilsTests.NotInSaoPaulo | src/date_utils.rs:480-484 | 2 July 2024 is not a holiday in SP |
| DateUtilsTests.ConstitutionalistRevolution | src/date_utils.rs:486-490 | 9 July 2024 is a holiday in SP |
| DateUtilsTests.UnknownUnit | src/date_utils.rs:493-498 | the unit "XX" gets no answer |
| DateUtilsTests.NewYear2024Words | src/date_utils.rs:422-425 | 1 January 2024 is written "Primeiro de janeiro de dois mil e vinte e quatro" |
| DateUtilsTests.NewYear2024Text | src/date_utils.rs:422-425 | "01/01/2024" converts to "Primeiro de janeiro de dois mil e vinte e quatro" |
| DateUtilsTests.FifteenthText | src/date_utils.rs:426-429 | day 15 is written "Quinze" |
| DateUtilsTests.TwentyFifthText | src/date_utils.rs:430-433 | day 25 is written "Vinte e cinco" |
| DateUtilsTests.August1990Words | src/date_utils.rs:426-429 | 15 August 1990 is written "Quinze de agosto de mil, novecentos e noventa" |
| DateUtilsTests.August1990Text | src/date_utils.rs:426-429 | "15/08/1990" converts to "Quinze de agosto de mil, novecentos e noventa" |
| DateUtilsTests.Christmas2000Words | src/date_utils.rs:430-433 | 25 December 2000 is written "Vinte e cinco de dezembro de dois mil" |
| DateUtilsTests.Christmas2000Text | src/date_utils.rs:430-433 | "25/12/2000" converts to "Vinte e cinco de dezembro de dois mil" |
| DateUtilsTests.NoSlashes | src/date_utils.rs:438 | "invalid" does not convert |
| DateUtilsTests.DayOutOfRange | src/date_utils.rs:439 | "32/01/2024" does not convert |
| DateUtilsTests.MonthOutOfRange | src/date_utils.rs:440 | "01/13/2024" does not convert |
| DateUtilsTests.NotALeapYear | src/date_utils.rs:441 | "29/02/2023" does not convert |
| Email.MatchRegex | src/email.rs:9-16 | the matcher built on the first '@' and the last '.' accepts exactly the addresses the regular expression matches at some split |
| Email.SplitPointsForced | src/email.rs:14 | any split the pattern accepts uses the first '@' and the last '.' |
| Email.ValidShape | src/email.rs:44-84 | an address is valid exactly when it has the shape the structural tests and the pattern together require |
| Email.IsValid | src/email.rs:44-84 | the guards of `is_valid` and then the pattern; ValidShape, ValidHasShape and ShapeIsValid prove it is the address shape |
| Email.ValidHasShape | src/email.rs:44-84 | a valid address has that shape at its first '@' and its last '.' |
| Email.ShapeIsValid | src/email.rs:44-84 | an address of that shape is valid |
| Email.AssembledAddress | src/email.rs:44-84 | a local part of local characters with no ".." and no '.' at either end, an '@', a domain name without dots, a '.', and two or more ASCII letters make a valid address |
| Email.ValidEnds | src/email.rs:14 | a valid address is at least six characters long, ends with two ASCII letters, and everything before its '@' is a local character |
| Email.ForeignLocalChar | src/email.rs:14 | a character outside `[a-zA-Z0-9._%+-]` before the first '@' makes the address invalid |
| Email.AtUnique | src/email.rs:65-68 | when splitting on '@' gives two pieces, the first '@' is the only one |
| EmailTests.SimpleAddress | src/email.rs:93 | "user@example.com" is valid |
| EmailTests.PercentAddress | src/email.rs:168 | "user%test@example.com" is valid |
| EmailTests.NumericTopLevelDomainRejected | src/email.rs:144-156 | "user@example.123" and "user@example.com." are rejected |
| EmailTests.HashInLocalPartRejected | src/email.rs:172 | "user#test@example.com" is rejected |
| EmailTests.EmptyRejected | src/email.rs:108 | the empty string is rejected |
| EmailTests.LeadingDotRejected | src/email.rs:127 | ".user@example.com" is rejected |
| EmailTests.DoubleDotRejected | src/email.rs:162 | "user..name@example.com" is rejected |
| EmailTests.TwoAtsRejected | src/email.rs:134 | "user@exam@ple.com" is rejected |
| EmailTests.ShortTopLevelDomainRejected | src/email.rs:124 | "user@example.c" is rejected |
| LegalNature.PublicAdministrationCodes | src/legal_nature.rs:20-47 | every public administration code is four digits starting with 1 |
| LegalNature.BusinessEntitiesCodes | src/legal_nature.rs:48-83 | every business entity code is four digits starting with 2 |
| LegalNature.NonProfitEntitiesCodes | src/legal_nature.rs:84-111 | every non-profit entity code is four digits starting with 3 |
| LegalNature.NaturalPersonsCodes | src/legal_nature.rs:112-116 | every natural person code is four digits starting with 4 |
| LegalNature.InternationalOrganizationsCodes | src/legal_nature.rs:117-121 | every international organisation code is four digits starting with 5 |
| LegalNature.TableCodes | src/legal_nature.rs:15-125 | every code of the table is four ASCII digits whose first digit, the section, is 1 to 5 |
| LegalNature.TableCodeDescribed | src/legal_nature.rs:15-125 | a table code, written as it is, gets the description it was inserted with |
| LegalNature.Normalize | src/legal_nature.rs:130-138 | a code normalises exactly when it holds four ASCII digits, and then to those four digits |
| LegalNature.NormalizeIgnoresSeparators | src/legal_nature.rs:131 | non-digit separators anywhere in a code are ignored |
| LegalNature.NormalizeFixed | src/legal_nature.rs:130-138 | four digits normalise to themselves, so normalising twice changes nothing |
| LegalNature.ValidShape | src/legal_nature.rs:168-174 | a valid code holds exactly four digits, the first a section number 1 to 5 |
| LegalNature.IsValid | src/legal_nature.rs:168-174 | the normalised code is a key of the table; ValidShape proves such a code has four digits and a section 1 to 5 |
| LegalNature.GetDescription | src/legal_nature.rs:198-204 | a description is found exactly when the code is valid, and it is the table's entry for the normalised code |
| LegalNature.ListAll | src/legal_nature.rs:224-229 | the listed map has the table's codes, each with the description `get_description` gives, and every code with a description is listed |
| LegalNature.TableLooksUpItself | src/legal_nature.rs:198-204 | looking up any table code as written gives its table entry |
| LegalNatureTests.ValueOfFour | src/legal_nature.rs:130-138 | four digits denote the number they spell |
| LegalNatureTests.LimitedCompanyDescription | src/legal_nature.rs:270-274 | code 2062 is "Sociedade Empresária Limitada" |
| LegalNatureTests.DescriptionOfLimitedCompany | src/legal_nature.rs:270-274 | "2062" is described as "Sociedade Empresária Limitada" |
| LegalNatureTests.FederalExecutiveDescription | src/legal_nature.rs:275-278 | code 1015 is "Órgão Público do Poder Executivo Federal" |
| LegalNatureTests.DescriptionWithHyphen | src/legal_nature.rs:275-278 | "101-5" is described as "Órgão Público do Poder Executivo Federal" |
| LegalNatureTests.SpacedCodeNormalized | src/legal_nature.rs:335 | "2 0 6 2" normalises to "2062" |
| LegalNatureTests.UnknownCodes | src/legal_nature.rs:288-289 | "9999" and "0000" have no description |
| LegalNatureTests.LetterInCode | src/legal_nature.rs:290 | "20A2" has no description |
| LegalNatureTests.EmptyCode | src/legal_nature.rs:291 | the empty code has no description |
| LegalProcess.RemoveSymbols | src/legal_process.rs:42-44 | the result is the id with every `.` and `-` deleted and the other characters kept in order; a character survives exactly when it was in the id and is neither symbol |
| LegalProcess.FormatLegalProcess | src/legal_process.rs:74-87 | an id is formatted exactly when it is twenty ASCII digits; the result is `Layout(id)`, the mask NNNNNNN-DD.AAAA.J.TR.OOOO with a dash at 7 and dots at 10, 15, 17 and 20 around the fields in order, and removing its symbols gives the id back |
| LegalProcess.FormatRoundTrip | src/legal_process.rs:76-83 | removing the symbols from the NNNNNNN-DD.AAAA.J.TR.OOOO layout gives the twenty digits back |
| LegalProcess.Layout | src/legal_process.rs:76-83 | the twenty digits laid out as NNNNNNN-DD.AAAA.J.TR.OOOO; FormatRoundTrip proves removing the symbols gives them back |
| LegalProcess.FieldKept | src/legal_process.rs:76-81 | a field of digits has no symbols to remove |
| LegalProcess.SeparatorsDropped | src/legal_process.rs:83 | removing the symbols from the layout leaves the six fields side by side |
| LegalProcess.CheckValue | src/legal_process.rs:102 | `97 - (num * 100) % 97` lies in 1..97 and completes `num * 100` to a multiple of 97 |
| LegalProcess.CheckValueUnique | src/legal_process.rs:102 | only one value in 1..97 completes `num * 100` to a multiple of 97 |
| LegalProcess.Checksum | src/legal_process.rs:100-107 | the checksum is two digits: "00" when the base does not parse as a `u128`, and otherwise the check value |
| LegalProcess.ChecksumUnique | src/legal_process.rs:100-107 | for a base that parses, two digits are its checksum exactly when their value is in 1..97 and completes the base times 100 to a multiple of 97 |
| LegalProcess.BaseForChecksum | src/legal_process.rs:184 | the checksummed base is the eighteen digits of every field but DD, in order |
| LegalProcess.EighteenDigitsFit | src/legal_process.rs:101-102 | an eighteen-digit base parses as a `u128` to its value, and multiplying it by 100 does not overflow |
| LegalProcess.IsValid | src/legal_process.rs:133-139 | an accepted id is twenty ASCII digits once its symbols are removed |
| LegalProcess.FieldsParse | src/legal_process.rs:150-163 | the J, TR and OOOO fields of twenty digits always parse as `u32`, to their values |
| LegalProcess.ChecksumMatches | src/legal_process.rs:184-187 | comparing DD with the checksum is the same as DD completing the base times 100 to a multiple of 97 |
| LegalProcess.IsValidFields | src/legal_process.rs:133-188 | an id is valid exactly when it is twenty digits once its symbols are removed and its fields pass the organ, tribunal, forum and checksum checks |
| LegalProcess.FieldsValid | src/legal_process.rs:150-187 | the organ, tribunal and court are in the table and the check digits hold; IsValidFields proves it is what `is_valid` checks |
| LegalProcess.CheckDigitsHold | src/legal_process.rs:184-187 | check digits 1 to 97 that make the base a multiple of 97; ChecksumMatches relates them to `checksum` |
| LegalProcess.ValidOnDigits | src/legal_process.rs:141-188 | on twenty digits, validity is the field checks alone |
| LegalProcess.ValidLooksUp | src/legal_process.rs:165-187 | on twenty digits, an id is valid exactly when its organ is in the table, its tribunal and forum are listed for that organ, and DD matches the checksum |
| LegalProcess.FormattedValid | src/legal_process.rs:134 | formatting an id does not change whether it is valid |
| LegalProcess.YearText | src/legal_process.rs:254 | a non-negative year prints as a numeral of its value, and a negative one starts with `-` |
| LegalProcess.Generate | src/legal_process.rs:216-258 | an id is generated exactly when the year is not before the current one and the organ is in 1..9 and in the table; GenerateLayout proves where each draw lands in it |
| LegalProcess.BaseFits | src/legal_process.rs:254-255 | the base `generate` checksums parses as a `u128`, and times 100 does not overflow |
| LegalProcess.IdSlices | src/legal_process.rs:142-147 | in twenty characters built from the six fields, each slice `is_valid` takes is the field it names |
| LegalProcess.RemoveSymbolsOfDigits | src/legal_process.rs:42-44 | a string of digits has no symbols to remove |
| LegalProcess.AssembledValid | src/legal_process.rs:133-188 | twenty digits assembled from fields that pass the table checks, with DD completing the multiple of 97, pass `is_valid` |
| LegalProcess.GeneratedFields | src/legal_process.rs:244-257 | for a four-digit year, each printed field has the width of its place in the layout and denotes what was drawn |
| LegalProcess.GeneratedValid | src/legal_process.rs:244-257 | the id assembled from table entries and a four-digit year is twenty digits and passes `is_valid` |
| LegalProcess.GenerateSound | src/legal_process.rs:216-258 | every id `generate` returns for a four-digit year is twenty digits and passes `is_valid` |
| LegalProcess.GeneratedLayout | src/legal_process.rs:244-257 | the id assembled from a four-digit year is twenty digits: the sequential number at [0,7), the checksum of the other eighteen digits at [7,9), the year at [9,13), the organ at [13,14), the tribunal at [14,16) and the court at [16,20), each denoting what was drawn |
| LegalProcess.GenerateLayout | src/legal_process.rs:216-258 | every id `generate` returns for a four-digit year passes the field checks of `is_valid`, and its slices [0,7), [9,13), [13,14), [14,16) and [16,20) are the drawn number, the year, the organ, the drawn tribunal and the drawn court |
| LegalProcess.AssembledPieces | src/legal_process.rs:257 | six digit fields of widths 7, 2, 4, 1, 2 and 4 concatenate to twenty digits whose slices are those fields |
| LegalProcess.GenerateLongYearInvalid | src/legal_process.rs:218-223 | for a year of five or more digits, every id `generate` returns has more than twenty digits and fails `is_valid` |
| LegalProcess.GenerateFourDigitYear | src/legal_process.rs:216-258 | with the year also limited to 1000..9999, an id is generated exactly when the other checks pass, and every id generated passes `is_valid` |
| LegalProcessTests.FormatExampleShape | src/legal_process.rs:279-284 | "12345678901234567890" is twenty digits and lays out as "1234567-89.0123.4.56.7890" |
| LegalProcessTests.FormatExample | src/legal_process.rs:279-284 | "12345678901234567890" formats to "1234567-89.0123.4.56.7890" |
| LegalProcessTests.FormatRejectsShort | src/legal_process.rs:300 | "123" is not formatted |
| LegalProcessTests.ChecksumExample | src/legal_process.rs:308 | the checksum of "546611720238150014" is "77" |
| LegalProcessTests.ZeroCheckDigitsRejected | src/legal_process.rs:322 | a twenty-digit id whose check digits are "00" is rejected by every table |
| LegalProcessTests.AllZerosRejected | src/legal_process.rs:322 | "00000000000000000000" is rejected |
| LegalProcessTests.GenerateYear3000 | src/legal_process.rs:354-357 | `generate(Some(3000), None)` gives an id exactly when the drawn organ is in the table, and its [9,13) slice is "3000" |
| LegalProcessTests.GenerateOrgao4 | src/legal_process.rs:349-363 | `generate(None, Some(4))` gives an id exactly when organ 4 is in the table; its [9,13) slice is the current year and its [13,14) slice is "4" |
| LicensePlate.PatternStrings | src/license_plate.rs:192-198 | "LLLNNNN" describes the old pattern and "LLLNLNN" the Mercosul pattern |
| LicensePlate.Matches | src/license_plate.rs:191-198 | a plate follows a pattern of L and N letters; PatternStrings proves the two patterns are the old and Mercosul shapes |
| LicensePlate.RemoveSymbols | src/license_plate.rs:25-27 | the result is the plate with every `-` deleted and the other characters kept in order; no dash is left and every other character survives |
| LicensePlate.IsValidOldFormat | src/license_plate.rs:77-93 | a plate is old format exactly when, trimmed, it is three letters and four digits in either case |
| LicensePlate.IsValidMercosul | src/license_plate.rs:104-130 | a plate is Mercosul exactly when, trimmed, it is three letters, a digit, a letter and two digits in either case |
| LicensePlate.FormatsDisjoint | src/license_plate.rs:92-124 | no plate follows both patterns |
| LicensePlate.UpperKeepsVerdicts | src/license_plate.rs:78-105 | uppercasing a plate first changes neither verdict |
| LicensePlate.GetFormat | src/license_plate.rs:191-201 | the format given is one the trimmed plate matches: "LLLNNNN" exactly for old plates, "LLLNLNN" exactly for Mercosul plates, and none when it matches neither |
| LicensePlate.IsValid | src/license_plate.rs:163-169 | a plate is valid exactly when it has a format, and that format is the one asked for when "old_format" or "mercosul" is given |
| LicensePlate.FormatLicensePlate | src/license_plate.rs:56-66 | a plate is formatted exactly when it is valid; a Mercosul plate is only uppercased; an old plate without surrounding whitespace gets a dash after its letters and nothing else |
| LicensePlate.FormatOldPlate | src/license_plate.rs:59-60 | an old plate is uppercased and gets a dash after its three letters |
| LicensePlate.FormatMercosulPlate | src/license_plate.rs:61-62 | a Mercosul plate is only uppercased, and its format is "LLLNLNN" |
| LicensePlate.OldDashed | src/license_plate.rs:60 | on an old plate without surrounding whitespace the dash is the only character inserted |
| LicensePlate.LetterOf | src/license_plate.rs:236 | `'A' + n` for `n` below 26 is an upper-case ASCII letter |
| LicensePlate.ValidOldLength | src/license_plate.rs:231-236 | an accepted old plate has at least seven characters, so index 4 exists |
| LicensePlate.ConvertToMercosul | src/license_plate.rs:226-240 | conversion fails exactly for a plate that is not old format; otherwise every character but index 4 is the uppercased original, and index 4 is rewritten |
| LicensePlate.PatternTrimmed | src/license_plate.rs:78 | a plate that follows either pattern is left alone by trimming, so the verdicts are the patterns themselves |
| LicensePlate.DigitToLetterOfOld | src/license_plate.rs:235-237 | rewriting index 4 of an uppercased old plate gives a Mercosul plate whose letter there encodes the old digit |
| LicensePlate.DigitToLetterAt4 | src/license_plate.rs:235-237 | the digit at index 4 becomes the letter of the same rank; DigitToLetterOfOld and ConvertInjective prove what the conversion gives |
| LicensePlate.ConvertedIsMercosul | src/license_plate.rs:226-240 | an old plate without surrounding whitespace converts to a Mercosul plate whose index-4 letter encodes the old digit |
| LicensePlate.ConvertInjective | src/license_plate.rs:235-237 | distinct old plates, up to case, convert to distinct Mercosul plates |
| LicensePlate.ConvertTrimmedToMercosul | src/license_plate.rs:226-240 | converting the trimmed plate fails exactly for a plate that is not old format, and otherwise gives a seven-character Mercosul plate |
| LicensePlate.ConvertUntrimmedBreaks | src/license_plate.rs:231-237 | " ABC1234" passes validation, but as written it converts to " ABCB234", which is not a Mercosul plate |
| LicensePlate.LeadingSpaceTrimmed | src/license_plate.rs:78 | trimming a single leading space before a plate gives the plate |
| LicensePlate.FormatUntrimmedBreaks | src/license_plate.rs:57-60 | " abc1234" passes validation, but as written it formats to " AB-C1234" |
| LicensePlate.FormatTrimmedLicensePlate | src/license_plate.rs:56-66 | formatting the trimmed plate: an accepted old plate gets its dash right after its letters and removing the dash gives a valid old plate; a Mercosul plate is the trimmed plate uppercased |
| LicensePlate.Generate | src/license_plate.rs:273-296 | a plate is generated exactly when the uppercased pattern, "LLLNLNN" by default, is one of the two; the plate then matches it, has that format, and holds the drawn letter at each L of the pattern and the drawn digit at each N |
| LicensePlate.Fill | src/license_plate.rs:283-293 | the loop pushes the drawn letter for each 'L' and the drawn digit for each 'N', so the plate matches the pattern |
| LicensePlate.PatternAlphabet | src/license_plate.rs:276 | both patterns have seven characters, each 'L' or 'N' |
| LicensePlate.GeneratedFormat | src/license_plate.rs:403-418 | a plate that matches one of the two patterns has that format |
| LicensePlateTests.RemoveDash | src/license_plate.rs:304 | "ABC-1234" cleans to "ABC1234" |
| LicensePlateTests.OldPlateFormatted | src/license_plate.rs:316-319 | "abc1234" formats to "ABC-1234" |
| LicensePlateTests.MercosulPlateFormatted | src/license_plate.rs:329 | "abc1e34" formats to "ABC1E34", and its format is "LLLNLNN" |
| LicensePlateTests.ShortPlateRejected | src/license_plate.rs:334 | "ABC123" is neither formatted nor given a format |
| LicensePlateTests.MercosulNotOld | src/license_plate.rs:378 | "ABC1D23" has the format "LLLNLNN" |
| LicensePlateTests.ConversionExample | src/license_plate.rs:387 | "ABC1234" converts to "ABC1C34" |
| LicensePlateTests.ConvertsTo | src/license_plate.rs:386-392 | an old-format plate converts to the plate whose fifth character is the letter for its second digit and whose other characters are its own, upper-cased |
| LicensePlateTests.OldValid | src/license_plate.rs:386-392 | a plate of three letters and four digits is accepted as old format |
| LicensePlateTests.ConversionFour | src/license_plate.rs:388 | "ABC4567" is old format and converts to "ABC4F67" |
| LicensePlateTests.ConversionZeros | src/license_plate.rs:389 | "ABC0000" is old format and converts to "ABC0A00" |
| LicensePlateTests.ConversionNines | src/license_plate.rs:390 | "ABC9999" is old format and converts to "ABC9J99" |
| LicensePlateTests.ConversionLowerCase | src/license_plate.rs:391 | "abc1234" is old format and converts to "ABC1C34" |
| LicensePlateTests.ConversionRejectsSymbol | src/license_plate.rs:396 | "ABC4*67" is not an old plate, so it does not convert |
| Phone.RemoveSymbols | src/phone.rs:26-33 | a character survives exactly when it was in the number and is not `(`, `)`, `-`, `+` or a space |
| Phone.ReplacementsCompose | src/phone.rs:27-32 | the five successive single-character deletions together delete all five symbols |
| Phone.RemoveSymbolsIdempotent | src/phone.rs:26-33 | removing symbols twice removes nothing more |
| Phone.IsValidMobile | src/phone.rs:49-72 | a mobile number is eleven ASCII digits whose first two are 1 to 9 and whose third is 9 |
| Phone.IsValidLandline | src/phone.rs:88-111 | a landline number is ten ASCII digits whose first two are 1 to 9 and whose third is 2 to 5 |
| Phone.MobileShape | src/phone.rs:49-72 | eleven digits, a two-digit area code without zeros, then 9; IsValidMobile proves the check decides it |
| Phone.LandlineShape | src/phone.rs:88-111 | ten digits, a two-digit area code without zeros, then 2 to 5; IsValidLandline proves the check decides it |
| Phone.IsValid | src/phone.rs:145-151 | "mobile" and "landline" select one rule, and no type or any other type accepts either |
| Phone.ValidKinds | src/phone.rs:145-151 | no number is both a mobile and a landline; the untyped check is their union, and an unknown type acts as no type |
| Phone.FormatPhone | src/phone.rs:177-192 | a number is formatted exactly when it is valid; the area code goes in parentheses and a dash goes before the last four digits; removing the symbols gives the number back |
| Phone.FormattedDigits | src/phone.rs:186-191 | the symbols `format_phone` inserts are the only ones removed from its result |
| Phone.DelimitedDigits | src/phone.rs:187 | removing the symbols of "(a)b-c" leaves the digits of a, b and c |
| Phone.RemoveFirst | src/phone.rs:299-301 | `replacen(pat, "", 1)` on a text that starts with `pat` drops that prefix |
| Phone.RemoveInternationalDialingCode | src/phone.rs:293-306 | once spaces are deleted, a number longer than eleven characters that starts with "+55" becomes "+" and the rest, one that starts with "55" loses it, and any other input comes back unchanged, spaces included |
| Phone.PlusCountryCode | src/phone.rs:298-299 | in "+55..." the first "55" is the one right after the plus sign |
| Phone.CountryCodeRoundTrip | src/phone.rs:293-306 | prefixing a valid number with "55" and removing the code gives the number back, and "+55" gives "+" and the number |
| Phone.ValidHasNoCountryCode | src/phone.rs:305 | a valid number is left unchanged |
| Phone.GenerateDdd | src/phone.rs:199-202 | the area code is two digits, each the drawn value from 1 to 9 |
| Phone.GenerateMobile | src/phone.rs:209-215 | the generated mobile number is valid as a mobile, with the drawn area code and the eight drawn digits after the 9 |
| Phone.GenerateLandline | src/phone.rs:222-229 | the generated number is a valid landline whose first two digits are the drawn area code, whose third digit is the drawn `first` and whose last seven digits denote the drawn remainder |
| Phone.Generate | src/phone.rs:259-272 | the generated number is valid for the type asked for, eleven digits for a mobile, ten for a landline, and one of the two otherwise |
| Phone.GenerateMobileComplete | src/phone.rs:209-215 | every valid mobile number is generated by the draws read off its own digits |
| Phone.GenerateLandlineComplete | src/phone.rs:222-229 | every valid landline number is generated by the draws read off its own digits |
| PhoneTests.MobileFormatted | src/phone.rs:359 | "11994029275" formats to "(11)99402-9275" |
| PhoneTests.LandlineFormatted | src/phone.rs:360 | "1635014415" formats to "(16)3501-4415" |
| PhoneTests.ShortNumbersRejected | src/phone.rs:363-364 | "333333" and "123" are not formatted |
| PhoneTests.WrongKindRejected | src/phone.rs:353-354 | "11894029275" and "1665014415" are rejected |
| PhoneTests.MobileIsNotLandline | src/phone.rs:338 | "11994029275" is a mobile and not a landline |
| PhoneTests.CountryCodeRemoved | src/phone.rs:400 | "5511994029275" loses its country code |
| PhoneTests.PlusCountryCodeRemoved | src/phone.rs:402 | "+5511994029275" loses its country code and keeps its plus sign: "+11994029275" |
| PhoneTests.PlusLocal | src/phone.rs:402 | a plus sign, "55" and the mobile number "11994029275" reduce to the plus sign and the number |
| Pis.RemoveSymbols | src/pis.rs:30-32 | the result is the input with every `.` and `-` deleted and the other characters kept in order; a character survives exactly when it was in the input and is neither symbol |
| Pis.Checksum | src/pis.rs:43-62 | the check digit is below 10; it completes the weighted sum to a multiple of 11 when the remainder is 2 or more, and is 0 otherwise |
| Pis.IsValid | src/pis.rs:85-101 | eleven ASCII digits whose last is the checksum of the first ten; FormatPis and Generate prove it is what formatting needs and what generation gives |
| Pis.FormatPis | src/pis.rs:126-138 | a PIS is formatted exactly when it is valid; the result is the mask "XXX.XXXXX.XX-X": dots at 3 and 9, a dash at 12, the digit groups in order between them, and removing the symbols gives the PIS back |
| Pis.FormatRoundTrip | src/pis.rs:131-137 | removing the symbols from the "XXX.XXXXX.XX-X" layout gives the eleven digits back |
| Pis.Generate | src/pis.rs:159-165 | the generated PIS is valid and its first ten digits denote the draw |
| Pis.GenerateComplete | src/pis.rs:159-165 | every valid PIS is what `generate` gives for the draw equal to its first ten digits |
| Pis.RepeatedZerosAccepted | src/pis.rs:85-101 | "00000000000" is valid, as `is_valid` has no test for repeated digits |
| Pis.ChecksumSumOfDigits | src/pis.rs:44-53 | on ten ASCII digits the checksum sum is the plain weighted sum |
| PisTests.ChecksumExampleZero | src/pis.rs:181 | the check digit of "1234567890" is 0 |
| PisTests.ChecksumExampleSeven | src/pis.rs:184 | the check digit of "8217853746" is 7 |
| PisTests.ValidExampleZero | src/pis.rs:191 | "12345678900" is valid |
| PisTests.ValidExampleThree | src/pis.rs:192 | "98765432103" is valid |
| PisTests.FormatExampleZero | src/pis.rs:207-210 | "12345678900" formats to "123.45678.90-0" |
| PisTests.FormatExampleThree | src/pis.rs:211-214 | "98765432103" formats to "987.65432.10-3" |
| Renavam.ReversedSumForward | src/renavam.rs:35-49 | reading the digits backwards against the weights is the forward sum against the reversed weights |
| Renavam.ReversedSumSplit | src/renavam.rs:45-49 | the last `k` forward terms are the first `k` reversed terms |
| Renavam.CalculateChecksum | src/renavam.rs:30-59 | the check digit is below 10; it is 0 unless the input is ten ASCII digits; otherwise it completes the weighted sum to a multiple of 11 when the remainder is 2 or more, and is 0 when it is below 2 |
| Renavam.IsValid | src/renavam.rs:85-111 | eleven digits, not all equal, the last the checksum of the first ten; Generate and RejectedExamples prove what it accepts and rejects |
| Renavam.Generate | src/renavam.rs:128-147 | a base of ten digits that are not all equal, followed by its check digit, is a valid RENAVAM starting with that base |
| Renavam.GenerateComplete | src/renavam.rs:128-147 | every valid RENAVAM whose base is not one repeated digit is what `generate` builds from that base |
| Renavam.RepeatedBaseAccepted | src/renavam.rs:96-100 | "11111111116" is valid though its base is one repeated digit, which `generate` never draws |
| RenavamTests.ChecksumExampleEight | src/renavam.rs:156 | the check digit of "8676959730" is 8 |
| RenavamTests.ChecksumExampleSeven | src/renavam.rs:157 | the check digit of "0123456789" is 7 |
| RenavamTests.RejectedExamples | src/renavam.rs:173-213 | "11111111111", "123" and the empty string are rejected, and inputs of the wrong length get check digit 0 |
| VoterId.FieldsPartition | src/voter_id.rs:176-192 | a 12-character id is its sequential number, code and verifying digits; a 13-character id has an extra ninth character between them that no getter reads |
| VoterId.SequentialNumber | src/voter_id.rs:176-178 | the first eight characters; FieldsPartition proves the getters split an id |
| VoterId.FederativeUnion | src/voter_id.rs:183-186 | the two characters before the last two; FieldsPartition proves the getters split an id |
| VoterId.VerifyingDigits | src/voter_id.rs:189-192 | the last two characters; FieldsPartition proves the getters split an id |
| VoterId.IsFederativeUnionValid | src/voter_id.rs:195-201 | a code is valid exactly when it parses as a `u8` between 1 and 28 |
| VoterId.FederativeUnionRange | src/voter_id.rs:195-201 | a two-digit code is valid exactly when its value lies in 1..28 |
| VoterId.UfMapCodesValid | src/voter_id.rs:276-307 | every code in the unit table is two digits and valid |
| VoterId.FederativeUnionInTable | src/voter_id.rs:276-307 | every valid two-digit code is in the unit table |
| VoterId.Adjust | src/voter_id.rs:224-237 | a remainder of 0 becomes 1 for SP and MG, 10 becomes 0, and any other remainder is kept |
| VoterId.Vd1 | src/voter_id.rs:206-238 | the first verifying digit is below 10 |
| VoterId.Vd2 | src/voter_id.rs:243-273 | the second verifying digit is below 10 |
| VoterId.CalculateVd1 | src/voter_id.rs:206-238 | the loop over the first eight characters with weights 2 to 9 returns the first verifying digit |
| VoterId.CalculateVd2 | src/voter_id.rs:243-273 | the method returns the second verifying digit |
| VoterId.IsValid | src/voter_id.rs:34-79 | the method returns true exactly when the id satisfies the validity rule |
| VoterId.Valid | src/voter_id.rs:34-79 | all digits, a valid length, a valid federative union and both verifying digits right; IsValid proves the method decides it |
| VoterId.IsLengthValid | src/voter_id.rs:159-173 | 12 characters, or 13 for SP and MG; ThirteenOnlySpMg proves it |
| VoterId.ThirteenOnlySpMg | src/voter_id.rs:159-173 | a valid 13-digit id has the SP or MG code |
| VoterId.NinthDigitUnchecked | src/voter_id.rs:176-192 | any digit in the ninth place of a valid 13-digit id keeps it valid |
| VoterId.FormatVoterId | src/voter_id.rs:100-112 | an id is formatted exactly when it is valid; the result is the mask "XXXX XXXX XX XX" over its first twelve characters: spaces at 4, 9 and 12, the digit groups in order between them, and removing the spaces gives those twelve digits back |
| VoterId.FormatRoundTrip | src/voter_id.rs:105-111 | removing the spaces from "XXXX XXXX XX XX" gives the first twelve digits back |
| VoterId.FormatDropsThirteenth | src/voter_id.rs:105-111 | a valid 13-digit id loses a digit when formatted |
| VoterId.Generated | src/voter_id.rs:143-149 | the id built from a valid code and a draw is twelve digits, valid, with that code and a sequential number denoting the draw |
| VoterId.Generate | src/voter_id.rs:136-154 | an id is generated exactly when the uppercased unit, "ZZ" by default, is in the table, and it is the id built from that unit's code |
| VoterId.GenerateComplete | src/voter_id.rs:136-154 | every valid 12-digit id is what `generate` builds from its own code and sequential number |
| VoterIdTests.VerifyingDigitsExample | src/voter_id.rs:381-390 | the verifying digits for "69084709" and "28" are 2 and 8 |
| VoterIdTests.VerifyingDigitsExample2 | src/voter_id.rs:384-393 | the verifying digits for "16320401" and "09" are 2 and 2 |
| VoterIdTests.SampleFields | src/voter_id.rs:397-412 | "690847092828" splits into "69084709", "28" and "28" |
| VoterIdTests.ValidExample | src/voter_id.rs:316 | "690847092828" is valid |
| VoterIdTests.FormatExample | src/voter_id.rs:337-338 | "690847092828" formats to "6908 4709 28 28" |
| VoterIdTests.RejectedExample | src/voter_id.rs:320 | "123456789012" is rejected |
| VoterIdTests.FederativeUnionExamples | src/voter_id.rs:415-421 | "01" and "28" are valid codes and "00", "29" and "XX" are not; "+9" also passes, because the parser accepts a leading `+` |
| VoterIdTests.GenerateKeys | src/voter_id.rs:349-363 | "SP" maps to "01", no unit defaults to "ZZ" and "28", and "XX" has no entry |

## Left out

- The CEP lookups `get_address_from_cep` and `get_cep_information_from_address`: they make blocking HTTP requests and decode JSON.
- `normalize_string` in the CEP module: accent removal needs Unicode decomposition from a crate outside the model.
- `format_currency` and `convert_real_to_text`: they work on `f64`, including rounding, NaN, infinity and `-0.0`. The integer wording they build on (`number_to_words`) is modelled.
- `number_to_words(i64::MIN)`: negating that value overflows in Rust. The model uses unbounded integers and so covers every other `i64`.
- Randomness: every `generate` takes the values it would draw as parameters. Uniformity of the draws is not a property the model can state.
- The RENAVAM `generate` retry loop: the model starts once a base of ten digits that are not all equal has been drawn.
- The wall clock in the legal process `generate`: the current year is a parameter.
- The legal process id table loaded from `src/data/legal_process_ids.json`: that file is not part of this model, so the table is a parameter.
- Lazy initialisation of the legal nature table and the e-mail pattern through `OnceLock`: it matters only for threads. Both are constants here.
- The `regex` crate: the one e-mail pattern is written out as a predicate over characters.
- The `chrono` crate: replaced by the `Calendar` module. Only dates whose years lie within chrono's bounds are valid. Durations that would leave those bounds are not modelled.
- Non-ASCII text: `to_uppercase` and the byte-based `len()` are modelled for ASCII characters only.
- Test-only checks that repeated generation yields distinct values: they depend on randomness.
- `src/lib.rs`: it only re-exports the modules and runs smoke tests. Those tests call CPF functions that `src/cpf.rs` does not define, so `src/cpf.rs` is modelled as written.
- The unreachable `_ => false` arm of the state holiday match: `is_holiday` checks the state against the 27 units first, so that arm never runs.
- Cnpj.HashDigit: its `requires` asks for ASCII digits in the characters it reads and no more of them than there are weights. `hashdigit` panics otherwise (`unwrap` on a non-digit, an index past the weights), and that panic is not modelled.
- LegalProcess.Generate: its `requires` `WellFormedTable` asks that no organ has an empty tribunal or court list and that tribunal ids are below 100 and court ids below 10000. With an empty list `gen_range(0..0)` panics; with wider ids `{:02}` and `{:04}` print more digits than the layout has. Tables that break these rules are not modelled.
- DateUtils.NationalOnly: for negative years in which the truncating computus still gives a valid date, it does not compare `calculate_easter` as written with the true Easter. IsNationalHolidayAsWritten gives the answer in those years.
- DateUtils.IsHoliday: it follows the source, so 1 December is never a Saint Catherine holiday in SC. `is_holiday` panics in the years where `calculate_easter` does, and there the model answers `None`. IsHolidayCorrected is the corrected version, and IsHolidayAgrees states where the two agree.
- Currency.WordsInjective: it proves that different numbers have different tokens, not that their rendered words differ, because rendering tokens to text is not proved injective.
- Phone.RemoveFirst: its contract states only the case where the text starts with the pattern. That is the only case `remove_international_dialing_code` relies on.

## Findings

| source | as written | input that shows it | evidently intended | confidence | as-written member | corrected member |
|---|---|---|---|---|---|---|
| src/legal_process.rs:216-258 | `generate` accepts any year from the current one on, and writes it in full into the number | year 10000 gives a number longer than 20 digits, which `is_valid` rejects | only four-digit years produce a number, and every number produced is valid | not executed | LegalProcess.GenerateLongYearInvalid | LegalProcess.GenerateFourDigitYear |
| src/date_utils.rs:105-122 | the Easter computus uses Rust's truncating `/` and `%`, then unwraps `from_ymd_opt` | year -2 gives month 2 and day 31, so the unwrap panics | floor division, which gives a valid Sunday in March or April for every year | not executed | DateUtils.EasterAsWrittenPanics | DateUtils.Easter |
| src/license_plate.rs:56-66, 226-240 | `is_valid` trims the plate, but `convert_to_mercosul` and `format_license_plate` index the untrimmed text | " ABC1234" converts to " ABCB234", which is not Mercosul; " abc1234" formats as " AB-C1234" | both work on the trimmed plate that validation accepted | not executed | LicensePlate.ConvertUntrimmedBreaks | LicensePlate.ConvertTrimmedToMercosul |
| src/license_plate.rs:56-66 | `format_license_plate` inserts the dash at a fixed index of the untrimmed text | " abc1234" formats as " AB-C1234" | the dash goes after the three letters of the trimmed plate | not executed | LicensePlate.FormatUntrimmedBreaks | LicensePlate.FormatTrimmedLicensePlate |
| src/date_utils.rs:377-394 | the Santa Catarina rule moves Saint Catherine's day to the next Sunday only when `month == 11 && day >= 25` | in 2024, 25 November is a Monday and the Sunday is 1 December, which the guard misses (also 2002, 2013, 2019 and 2030) | the Sunday after 25 November is the holiday every year, even when it falls in December | not executed | DateUtils.SaintCatherine2024 | DateUtils.SaintCatherineEveryYear |
| src/date_utils.rs:161-192, 357-393 | `is_holiday` uses the Santa Catarina rule above | `is_holiday(2024-12-01, Some("SC"))` is `Some(false)` | 1 December 2024, Saint Catherine's Sunday, is a holiday in SC | not executed | DateUtils.SaintCatherineHoliday2024 | DateUtils.SaintCatherineHolidayCorrected |
