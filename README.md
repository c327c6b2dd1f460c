# Order aggregation and box allocation, modelled in Dafny

This project models the part of the order-management dashboard that turns the
rows of an order spreadsheet into numbers. That part does the following:

- It classifies each row's product from free text. The classifiers are
  priority-ordered keyword tests.
- It parses the option text into a bottle multiplier and a capacity token.
  Five regular expressions are tried in a fixed order.
- It normalises the capacity. Box planning counts 200ml as 240ml.
- It adds up effective quantities, once per product key and once per
  recipient and product key.
- It buckets each recipient's products by capacity, picks a box from a fixed
  table, and queues every order it cannot place for review.

The model also covers the stock page:

- splitting a product key into name and capacity;
- the "reflect shipment" step, which subtracts the shipped totals from the
  latest stock and floors the result at zero;
- pushing a new entry onto the head of the stock history.

It also covers the dashboard metrics, the summary of the review queue, the
re-order customer matching, the privacy helpers (masking names, phones and
addresses, and matching on the last four phone digits), and the keyword-to-
colour helper for product cards.

Modules, one per file:

- `Dict` — Python dictionaries as insertion-ordered association lists,
  together with the folds the loops perform:
  - `Tally` for `d[k] += v`;
  - `Group` for `d[r][k] += v`;
  - `Assign` for `d[k] = v`.
- `Text` — ASCII character classes, substring tests, `re.sub(r'\D', '', s)`,
  `split()`, `split(',')` and `join`.
- `Sorting` — `sorted(set(...))` on strings.
- `Classify`, `OptionParse`, `Capacity`, `Aggregate`, `Boxes` —
  `modules/data_processing.py`.
- `Stock`, `Dashboard`, `Reorder` — the inline logic of `main.py`.
- `Security` — `modules/security.py`.
- `Colors` — `get_product_color` in `modules/ui_utils.py`.

The loops that build dictionaries and lists step by step are Dafny methods
with `while` loops:
- the totals and the per-recipient grouping of `process_unified_file`;
- `get_product_quantities`, `calculate_box_for_order` and
  `calculate_box_requirements`;
- the stock update of the reflection button;
- the review summary and its order-details loop;
- the search for a re-order match, the loop that collects the re-orders, and
  `find_matching_customer`.

Each method is proved equal to a specification function, and the properties
are lemmas about that function. The loop in `get_product_color` only returns
the first hit, so it is the recursive function `Colors.FirstColor`. The
`len([... if v > 0])` comprehensions are the recursive function
`Dict.CountPositive`. The regular expressions are hand-written scanners. Each
scanner tries every start position from the left, as `re.search` does.

The model follows the code as written on these points:

- The option classifier tests "식혜" before "수정과" and before the yogurt
  keywords.
- `standardize_capacity` returns an unrecognised token lower-cased.
- The capacity token in `parse_option_info` is case-sensitive: only `ml` and
  `L` count.
- A multiplier of 0 and negative quantities pass through unchanged.
- The per-recipient grouping uses the box-mode normalisation.

## Model

| member | source | states |
|---|---|---|
| Classify.FromOption | modules/data_processing.py:36-52 | `extract_product_from_option`: "기타" for a missing cell, else the first keyword test on the lower-cased text that succeeds; characterised by OptionPumpkinWins, OptionSikhyeIff and OptionOtherIff |
| Classify.FromName | modules/data_processing.py:54-77 | `extract_product_from_name`: the stripped `[서로 X]` content is tested first, then only the yogurt words on the whole name; characterised by NameBracketForm, NameNeedsTag and NameWithoutBracket |
| Classify.Final | modules/data_processing.py:288-290 | the final category is the option's category unless that is "기타", and is "기타" only when both classifiers give "기타" |
| Classify.OptionPumpkinWins | modules/data_processing.py:43-44 | any option text containing "단호박식혜" is classified "단호박식혜" |
| Classify.OptionSikhyeIff | modules/data_processing.py:45-46 | the option text is "식혜" exactly when it contains "일반식혜", or contains "식혜" without "단호박" |
| Classify.OptionSikhyeBeforeOthers | modules/data_processing.py:45-50 | 식혜 without 단호박 wins over 수정과 and the yogurt keywords |
| Classify.OptionOtherIff | modules/data_processing.py:41-52 | the option classifier gives "기타" exactly when none of its keywords occurs |
| Classify.KeywordsUnaffectedByLower | modules/data_processing.py:41 | lower-casing does not change whether any Korean keyword occurs |
| Classify.KeywordParts | modules/data_processing.py:43-49 | "단호박식혜" contains both "단호박" and "식혜", which is why its test must come first |
| Classify.BracketNeedsTag | modules/data_processing.py:61-62 | the bracket search only succeeds on text containing "[서로" |
| Classify.BracketAtForm | modules/data_processing.py:62-64 | on "[서로 X]…", with X not starting with a space and free of "]", the bracket match gives X stripped |
| Classify.NameBracketForm | modules/data_processing.py:58-73 | a name starting with "[서로 X]" is classified by the stripped X whenever X names a category |
| Classify.NameNeedsTag | modules/data_processing.py:58-77 | a product name is classified 단호박식혜, 식혜 or 수정과 only when it contains a "[서로" tag |
| Classify.NameWithoutBracket | modules/data_processing.py:74-77 | a product name without a bracket and without a yogurt keyword is "기타", even if it says 식혜 |
| Classify.NameBracketFirst | modules/data_processing.py:61-73 | a bracket whose content is classified decides before the keywords outside it |
| Classify.ExamplePumpkin | modules/data_processing.py:43-44 | "단호박식혜 240ml" is 단호박식혜 |
| Classify.ExampleNameSikhyeOnly | modules/data_processing.py:61-77 | the bracketless name "진하고 깊은 식혜 1L" is "기타" |
| Classify.ExampleNameBracket | modules/data_processing.py:58-73 | "[서로 단호박식혜] 1L" is 단호박식혜 |
| OptionParse.ParseOptionInfo | modules/data_processing.py:79-111 | `parse_option_info`: (1, "") for a missing cell, else the result of the first of the five pattern searches that matches, else (1, ""); its properties are the lemmas below |
| OptionParse.CapLen | modules/data_processing.py:87 | the capacity scanner consumes only digits, '.', 'm', 'l', 'L', starting with a digit |
| OptionParse.CapLenToken | modules/data_processing.py:87 | the scanner takes exactly a written-out token `D[.F](ml or L)`, whatever follows |
| OptionParse.SearchShape | modules/data_processing.py:86-109 | whatever a pattern search returns has a capacity token that occurs in the input and a non-negative count |
| OptionParse.ParseShape | modules/data_processing.py:79-111 | the multiplier is non-negative; the capacity is "" or a capacity token that occurs in the input; an empty capacity comes with multiplier 1 |
| OptionParse.NoCapacityToken | modules/data_processing.py:106-111 | text without any capacity token parses to (1, "") |
| OptionParse.SearchAnchor | modules/data_processing.py:87-104 | the first four patterns only match text containing their anchor character (개, ',', 용, 병) |
| OptionParse.SearchSkip | modules/data_processing.py:87-107 | a prefix without digits does not change the search of the digit-led patterns |
| OptionParse.CountCommaFormat | modules/data_processing.py:86-89 | "N개, CAP…" parses to (N, CAP) |
| OptionParse.BareCommaFormat | modules/data_processing.py:91-94 | "N, CAP…" without 개 parses to (N, CAP) |
| OptionParse.LabelledFormat | modules/data_processing.py:96-99 | "용량 : CAP M병…" without 개 or ',' parses to (M, CAP) |
| OptionParse.BottleFormat | modules/data_processing.py:101-104 | "…CAP M병…" with no digit before and no earlier anchors parses to (M, CAP) |
| OptionParse.CapacityOnlyFormat | modules/data_processing.py:106-109 | text whose first capacity token has no digit before it, with no 개, comma, 용 or 병 around it, parses to (1, CAP) |
| OptionParse.ExampleCountComma | modules/data_processing.py:86-89 | "5개, 240ml" gives (5, "240ml") |
| OptionParse.ExampleZeroCount | modules/data_processing.py:86-89 | "0개, 240ml" gives (0, "240ml") |
| OptionParse.ExampleBareComma | modules/data_processing.py:91-94 | "2, 1L" gives (2, "1L") |
| OptionParse.ExampleLabelled | modules/data_processing.py:96-99 | "용량 : 1L 2병" gives (2, "1L") |
| OptionParse.ExampleBottle | modules/data_processing.py:101-104 | "500ml 3병" gives (3, "500ml") |
| OptionParse.ExampleCapacityOnly | modules/data_processing.py:106-109 | "플레인 쌀요거트 1.5L" gives (1, "1.5L") |
| Capacity.Standardize | modules/data_processing.py:113-132 | `standardize_capacity`: "" for "", else the prefix tests on the lower-cased token; characterised by StandardizeShape and StandardizeValue |
| Capacity.StandardizeShape | modules/data_processing.py:113-132 | the result is "" exactly for "", canonical after a known prefix, and the lower-cased input otherwise |
| Capacity.StandardizeValue | modules/data_processing.py:119-130 | after lower-casing, "1.5l…" gives "1.5L", "1l…" and "1000ml…" give "1L", "500ml…" and "240ml…" give themselves, and "200ml…" gives "240ml" in box mode and "200ml" otherwise; no two of these prefixes overlap |
| Capacity.StandardizeNoLonger | modules/data_processing.py:113-132 | the standardised token is never longer than the input |
| Capacity.Example1000ml | modules/data_processing.py:123-124 | "1000ml" and "1000ML" standardise to "1L" in both modes |
| Capacity.CanonicalFixed | modules/data_processing.py:119-130 | canonical spellings map to themselves, except 200ml, which becomes 240ml in box mode |
| Capacity.StandardizeIdempotent | modules/data_processing.py:113-132 | standardising twice in the same mode equals standardising once |
| Capacity.BoxModeMerges200 | modules/data_processing.py:129-130 | box mode never yields "200ml" and differs from shipment mode only by turning 200ml into 240ml |
| Capacity.StandardizeCaseInsensitive | modules/data_processing.py:119 | inputs that lower-case alike standardise alike |
| Capacity.StandardizeNoSpace | modules/data_processing.py:113-132 | standardising a space-free token keeps it space-free |
| Aggregate.ProductKey | modules/data_processing.py:303-306 | the key is the category name when the capacity is empty, else category, one space, capacity |
| Aggregate.ShipmentTotals | modules/data_processing.py:282-308 | the loop's dictionary is the tally of the rows' (key, base × multiplier) pairs in shipment mode |
| Aggregate.Totals | modules/data_processing.py:294-308 | the shipment dictionary: the tally of each row's (key, base × multiplier); its properties are TotalsGet, TotalsKeys and TotalsConserve |
| Aggregate.TotalsGet | modules/data_processing.py:299-308 | every key holds the sum of the effective quantities of the rows with that key |
| Aggregate.TotalsKeys | modules/data_processing.py:303-308 | keys are distinct and are exactly the keys of the rows |
| Aggregate.TotalsConserve | modules/data_processing.py:294-308 | the values add up to the sum over all rows of base quantity × multiplier |
| Aggregate.GroupOrdersByRecipient | modules/data_processing.py:139-169 | the loop's nested dictionary is the grouping of the rows by recipient, with box-mode keys |
| Aggregate.Orders | modules/data_processing.py:139-169 | the per-recipient dictionary: the grouping of each row's (recipient, (box-mode key, base × multiplier)); its properties are OrdersGet, OrdersKeys and OrdersConserve |
| Aggregate.OrdersGet | modules/data_processing.py:143-167 | a recipient's inner dictionary is the tally of that recipient's rows alone |
| Aggregate.OrdersKeys | modules/data_processing.py:144 | the outer keys are distinct and are exactly the rows' recipients ("알 수 없음" when absent) |
| Aggregate.OrdersConserve | modules/data_processing.py:159-167 | all inner values together add up to the total effective quantity |
| Aggregate.BoxKeyNot200 | modules/data_processing.py:160-165 | no box-mode key ends in " 200ml" |
| Aggregate.OrdersHaveNo200 | modules/data_processing.py:160-167 | no recipient's product key ends in " 200ml" |
| Boxes.BucketOf | modules/data_processing.py:175-185 | the bucket of a product key, when it has one, is one of 1.5L, 1L, 500ml, 240ml |
| Boxes.BucketRules | modules/data_processing.py:175-185 | 1.5L is tested first, so a 1.5L key never feeds 1L; 200ml feeds 240ml; a key with none of the sizes feeds no bucket |
| Boxes.BucketNoDigit | modules/data_processing.py:175-185 | a key without digits feeds no bucket |
| Boxes.NoCapacityNoBucket | modules/data_processing.py:175-185 | keys counted without a capacity contribute nothing |
| Boxes.GetProductQuantities | modules/data_processing.py:171-187 | the loop's result is the tally of (bucket, quantity) over the products that fall in a bucket |
| Boxes.QuantitiesShape | modules/data_processing.py:171-187 | each bucket holds the sum of its products' quantities; only the four buckets ever appear, each once |
| Boxes.RulesDisjoint | modules/data_processing.py:200-230 | no two lines of the box table overlap |
| Boxes.TableIff | modules/data_processing.py:200-230 | the if-chain gives box b exactly when a line of the table for b applies |
| Boxes.TableRange | modules/data_processing.py:198-233 | a box needs a bucket and 1–10 bottles; 1L 7 and 500ml 7–9 have no box; 1.5L fits only 1–4 |
| Boxes.DecideBox | modules/data_processing.py:189-233 | `calculate_box_for_order`: review for mixed capacities, else the first positive bucket the table accepts, else review; characterised by DecideBoxIff |
| Boxes.CalculateBoxForOrder | modules/data_processing.py:189-233 | the method returns the decision of the two-stage rule |
| Boxes.DecideBoxIff | modules/data_processing.py:192-233 | box b is chosen exactly when one bucket is positive, all others are not, and the table gives b for it |
| Boxes.MixedNeedsReview | modules/data_processing.py:193-195 | two positive buckets always give "검토 필요" |
| Boxes.EmptyNeedsReview | modules/data_processing.py:232-233 | no positive bucket gives "검토 필요" |
| Boxes.Partition | modules/data_processing.py:242-255 | box counts plus review entries equal the number of recipients |
| Boxes.BoxTotalsCount | modules/data_processing.py:252-253 | each box's count is the number of recipients assigned that box; "검토 필요" is not a box |
| Boxes.ReviewOrdersIff | modules/data_processing.py:246-251 | the review queue holds exactly the recipients whose decision is "검토 필요", with their quantities and products |
| Boxes.CalculateBoxRequirements | modules/data_processing.py:235-255 | the method returns the box totals and the review queue of the grouped rows |
| Boxes.ExampleBucket15 | modules/data_processing.py:176-177 | "단호박식혜 1.5L" is in the 1.5L bucket |
| Boxes.ExampleBucket1500 | modules/data_processing.py:180-181 | "식혜 1500ml" lands in the 500ml bucket, because the tests are substring tests |
| Boxes.ExampleBucket1200 | modules/data_processing.py:184-185 | "식혜 1200ml" lands in the 240ml bucket through the 200ml test |
| Boxes.ExampleBucketNone | modules/data_processing.py:175-185 | "식혜 2l" is in no bucket |
| Stock.SplitKey | main.py:939-945 | a non-empty capacity is one whitespace-free word that begins with a capacity token |
| Stock.SplitJoined | main.py:939-945 | words followed by a capacity word split back into the words joined by single spaces and that capacity |
| Stock.SplitUnsplit | main.py:943-945 | a key whose last word is not a capacity is all name, with an empty capacity |
| Stock.SplitProductKey | main.py:939-947 | aggregation keys with a canonical or empty capacity split into category name and capacity, giving "name|capacity" |
| Stock.SplitLowerCapacity | main.py:940 | a lower-cased unit such as "식혜 2l" is not split off, since the token needs `ml` or `L` |
| Stock.SplitTwoWords | main.py:939-947 | a two-word name and a canonical capacity, such as the fixed product "밥알없는 단호박식혜 1.5L", give the input key "word word\|capacity" |
| Stock.Universe | main.py:887-912 | the listed keys are sorted, distinct, and exactly the shipment keys plus the fifteen fixed products |
| Stock.Reflect | main.py:936-957 | the reflected stock: the assignment fold of (input key, max(0, current − shipped)) over the product keys; characterised by ReflectCoverage and ReflectValue |
| Stock.UpdatedStock | main.py:936-957 | the loop's dictionary is the assignment fold of (input key, floored remainder) over the product keys |
| Stock.ReflectCoverage | main.py:937-957 | the result has one entry per distinct input key of the product keys, and no other |
| Stock.ReflectCoversUniverse | main.py:887-912 | every shipped product and every fixed product gets an entry |
| Stock.ReflectValue | main.py:950-957 | an entry is max(0, current − shipped) for the last key with that input key; absent keys read 0 |
| Stock.ReflectValueDistinct | main.py:950-957 | with distinct input keys, every entry is max(0, current − shipped) |
| Stock.ReflectNonNegative | main.py:956 | no entry is negative |
| Stock.ReflectNoIncrease | main.py:950-957 | with non-negative shipments, no entry exceeds the previous stock (floored at 0) |
| Stock.StockStore.constructor | main.py:928 | a store starts from the loaded history and latest entry |
| Stock.StockStore.Push | main.py:968-973 | the entry is inserted at index 0; older entries are unchanged; the length grows by one; the entry becomes the latest |
| Stock.StockStore.ReflectShipment | main.py:887-973 | the pushed entry holds the reflection, over the sorted shipment and fixed product keys, of the previous latest inputs; it is marked as reflected and has an entry for every shipped and every fixed product |
| Stock.StockStore.RecordManual | main.py:1252-1270 | the pushed entry holds the form inputs and is marked as manual |
| Dashboard.TotalShipped | main.py:620 | `sum(shipment_results.values())`; tied to the rows by ShipmentMetrics |
| Dashboard.ProductTypes | main.py:621 | the number of entries with a positive value; tied to the rows by ShipmentMetrics |
| Dashboard.ShipmentMetrics | main.py:620-621 | the total shipped is the sum of the rows' effective quantities; the product types are the number of distinct keys whose total is positive; with no negative quantity, there are no product types exactly when nothing was shipped |
| Dict.CountPositiveKeys | main.py:621 | on a dictionary with distinct keys, the count of positive values is the number of keys that read a positive value |
| Dashboard.BoxMetrics | main.py:744-745 | total boxes plus review count equal the number of distinct recipients |
| Dashboard.Details | main.py:847-857 | the "주문 내역" cell: the items of the positive capacities joined by ", ", or "확인 필요"; characterised by DetailItemsMember, DetailItemsOrder and DetailsNeedCheck |
| Dashboard.OrderDetails | main.py:847-857 | the inner loop computes the "주문 내역" cell of one order |
| Dashboard.ReviewSummary | main.py:843-858 | one summary line per review order, in order, numbered from 1 |
| Dashboard.DetailItemsMember | main.py:848-851 | an item is listed exactly for a capacity with a positive quantity |
| Dashboard.DetailItemsOrder | main.py:848-851 | items follow the fixed order 1.5L, 1L, 500ml, 240ml |
| Dashboard.DetailsNeedCheck | main.py:857 | the cell reads "확인 필요" exactly when no capacity is positive |
| Dashboard.SummaryNumber | main.py:844-855 | line i is numbered "주문 " followed by i + 1 |
| Reorder.InlineIsMatchPhone | main.py:1435-1442 | the inline phone test decides exactly what `match_phone_number` decides |
| Reorder.FindReorderMatch | main.py:1423-1442 | the search loop settles on the first row matching by name or by phone, or on none |
| Reorder.MatchOfIff | main.py:1425-1442 | a match is found exactly when some row matches by name or by phone |
| Reorder.OrderCount | main.py:1447 | the order count is at least 1 |
| Reorder.OrderCountItems | main.py:1447 | for a real history the count is the number of commas plus one, and the items join back into the history |
| Reorder.CollectReorders | main.py:1421-1447 | the loop's list is one entry per matched orderer, in order |
| Reorder.ReordersIff | main.py:1421-1447 | every entry comes from an orderer and the row it matched, and every matched orderer has one |
| Security.MaskName | modules/security.py:34-42 | "" gives "알 수 없음"; one character is kept; longer names keep the first character, the rest become ○, length kept |
| Security.MaskNameIdempotent | modules/security.py:34-42 | masking a masked name changes nothing |
| Security.MaskPhone | modules/security.py:44-57 | the result is "****", "****-" plus four characters, or three characters, "-****-" and four characters |
| Security.DigitsOfMaskedPhone | modules/security.py:44-57 | the digits of the masked phone are the first 3 and last 4 (≥ 8 digits), the last 4 (4–7 digits), or none |
| Security.MaskPhoneHides | modules/security.py:44-57 | a masked phone shows at most seven digits |
| Security.MaskedPhoneMatches | modules/security.py:44-57 | a masked phone with four digits or more still matches the original on the last four digits |
| Security.MatchPhone | modules/security.py:100-111 | `match_phone_number`: both present, both with four digits or more, same last four digits; its partners are MatchPhoneSymmetric and MaskedPhoneMatches |
| Security.MatchPhoneSymmetric | modules/security.py:100-111 | phone matching is symmetric |
| Security.MaskAddress | modules/security.py:59-76 | a masked non-empty address is at most three characters longer than the address |
| Security.AddressSearch | modules/security.py:66-67 | group 1 occurs in the address, has at least two characters and ends in 동/읍/면/가/리 |
| Security.MaskAddressShape | modules/security.py:59-76 | the mask keeps a marker-ended part of the address plus " ○○○", or the first ten characters plus "...", or the whole short address |
| Security.MaskAddressAt | modules/security.py:66-70 | on one line, the address is cut right after the first marker that has a character before and after it |
| Security.MaskAddressPlain | modules/security.py:71-76 | on one line without such a marker, the address is shown whole when it has at most ten characters, and otherwise as its first ten characters plus "..." |
| Security.MaskCustomerInfo | modules/security.py:78-85 | both names go through name masking, the phone through phone masking, and the order info is copied unchanged |
| Security.MaskedInfoUsable | modules/security.py:78-85 | the masked record still matches the original on the phone's last four digits |
| Security.FirstMatch | modules/security.py:87-98 | the reference index is that of the first matching row; none only when no row matches |
| Security.FindMatchingCustomer | modules/security.py:87-98 | returns the first row matching by name or by phone, and none exactly when no row matches |
| Colors.ProductColor | modules/ui_utils.py:148-162 | `get_product_color`: the first-hit colour over the lower-cased name; characterised by the lemmas below |
| Colors.FirstColor | modules/ui_utils.py:158-162 | the colour is the default or one of the table's colours |
| Colors.FirstColorIndex | modules/ui_utils.py:158-160 | the first keyword that hits decides the colour |
| Colors.FirstColorNone | modules/ui_utils.py:162 | with no keyword hitting, the colour is grey |
| Colors.ColorRange | modules/ui_utils.py:150-162 | the colour is one of the five mapped colours or the default |
| Colors.PumpkinGold | modules/ui_utils.py:151-160 | a name containing "단호박식혜" is always #FFD700 |
| Colors.NoBrownForPumpkin | modules/ui_utils.py:159 | #654321 is never given to a name containing "단호박" |
| Colors.SujeonggwaFirst | modules/ui_utils.py:152-160 | 수정과 is tested before 식혜 |
| Colors.SikhyeBrown | modules/ui_utils.py:153-159 | plain 식혜 without 단호박 or 수정과 is #654321 |
| Colors.DefaultGrey | modules/ui_utils.py:162 | a name with none of the keywords is #808080 |

## Left out

- Streamlit pages, forms, buttons, HTML cards, progress bars and messages. They are presentation. The form values the stock page reads are a parameter of `RecordManual`.
- Excel reading and the pandas plumbing. A row is a record with four optional cells, and a customer file is a sequence of records whose cells are already text.
- GitHub persistence, encryption, JSON and the timestamps. They are network, crypto, serialisation and clock calls. The timestamp of a stock entry is an opaque input string.
- pandas `NaN`: a missing option or name cell is `None`. A missing recipient is "알 수 없음"; the model ignores that pandas can also give `NaN` there. `int()` of a float cell is taken as already done: the quantity is an `Option<int>`, where `None` means `int()` raised.
- Unicode `\d`, `\s`, `str.lower()` and `str.split()` on non-ASCII characters. Only ASCII digits, ASCII letters and ASCII whitespace are modelled; the ASCII whitespace includes the separators U+001C to U+001F, which Python also treats as whitespace. Non-ASCII whitespace such as U+00A0 is not whitespace in the model.
- Aggregate.OrdersHaveNo200: states that no key ends in " 200ml", which is weaker than "contains no 200ml". A token such as "1200ml" passes through the box normalisation as "1200ml".
- Stock.ReflectShipment: the button only appears when shipment data exists. The method itself does not require that.
- Reorder.FindReorderMatch: the orderer name and phone cells are taken as text. In the program they are raw cells: a blank (`NaN`) or numeric orderer phone makes `len()` raise `TypeError` once a stored phone has four or more characters, and the surrounding `except` then discards the whole re-order list. The model instead treats such a phone as "" and skips only the phone test.
- Reorder.CollectReorders: an entry holds only the matched row, the orderer and recipient names, the order count and the current order. `customer_id`, `last_order_date`, the parsed history details and the masked copies of name and phone (which are computed but never stored) are not modelled.
- The product-info string built for each orderer before matching is taken as an input. As a result its standardisation in shipment mode is not re-modelled there.
- The shipment table's own split of keys (main.py:656-669) uses the same rule as `Stock.SplitKey`, so it is not modelled a second time.
- Floating-point values (the progress fraction and the re-order rate) and memory management are runtime plumbing and are left out.
