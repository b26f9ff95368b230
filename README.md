# Resource-ask validation of fastapi-docker

This project models the one piece of logic in the code-execution service: the
validation of a request's resource ask, the pydantic model `ResourceType` in
`services/docker.py`. A request gives four strings. `cpu` and `gpu` must consist
of decimal digits only and are stored as integers. `ram` and `storage` must be a
run of digits followed by a two-letter unit, `MB` or `GB` in any letter case,
and are stored exactly as given. A `ResourceType` exists only when all four
fields pass. Otherwise construction fails with one error per failing field, each
naming the field, the string it was given and the validator's message.

The model is pure, as the source is:

- `pystr.dfy` (module `PyStr`) gives the Python primitives the validators use:
  `str.isdigit`, `str.upper`, slicing with a negative bound, and the decimal
  value of a digit string, paired with the canonical decimal rendering of a
  number. `int`'s limit on the number of digits is added by
  `Docker.ValidatePositiveInt`.
- `docker.dfy` (module `Docker`) gives the two validators, the construction of
  `ResourceType` from the four strings, and the properties proved about them.

Each validator is paired with a definition it is proved against. For
quantities this is `ValidQuantity`, a character-level rule. For counts it is
the decimal rendering: an accepted count is its value's rendering after some
leading zeros, and every number's rendering reads back as that number.
`Accepts` says which rule each field uses.

The count validator calls `int(v)`. CPython refuses to convert a digit string
of more than 4300 digits (`sys.get_int_max_str_digits()`), raising a
`ValueError` whose message does not begin with the input. The model keeps this
limit (`Docker.MaxStrDigits`), so a count is accepted only when it has between
1 and 4300 digits.

The validator of counts is called `validate_positive_int`, but it accepts `"0"`.
Its error message says "non-negative", and the model follows the code
(`Docker.CountExamples`).

## Model

| member | source | states |
|---|---|---|
| `PyStr.IsDigitString` | services/docker.py:12 | `str.isdigit` holds exactly when the string is non-empty and every character is one of '0'..'9' |
| `PyStr.DigitsValue` | services/docker.py:14 | the decimal value of a string of `k` digits, which `int` computes within its digit limit, is below `10^k` |
| `PyStr.Upper` | services/docker.py:18 | `str.upper` keeps the length and upper-cases each character on its own |
| `PyStr.Prefix` | services/docker.py:18 | `v[:stop]` is a prefix of `v` |
| `PyStr.Suffix` | services/docker.py:18 | `v[start:]` is a suffix of `v` |
| `PyStr.LastTwoSlices` | services/docker.py:18 | for `len(v) < 2`, `v[:-2]` is empty and `v[-2:]` is `v`; otherwise they are all but the last two characters, and the last two |
| `PyStr.Decimal` | services/docker.py:14 | the decimal rendering of a number is a non-empty digit string with no leading zero unless it is `"0"` |
| `PyStr.DecimalValue` | services/docker.py:14 | the digit value of the rendering of `n` is `n`, for every natural number `n` |
| `PyStr.DecimalLength` | services/docker.py:14 | the rendering of `n` has at most `k` digits exactly when `n < 10^k` (for `k >= 1`) |
| `PyStr.CanonicalDecimal` | services/docker.py:14 | a digit string without a leading zero is the rendering of its digit value |
| `PyStr.ZerosValue` | services/docker.py:14 | leading zeros leave the digit value unchanged |
| `PyStr.PaddedDecimal` | services/docker.py:14 | every digit string is some zeros followed by the rendering of its digit value |
| `Docker.CountMessage` | services/docker.py:13 | the count validator's message begins with the rejected input |
| `Docker.QuantityMessage` | services/docker.py:19 | the quantity validator's message begins with the rejected input |
| `Docker.IntLimitMessage` | services/docker.py:14 | the message of `int`'s digit-limit `ValueError` begins with a letter, so it never begins with a rejected digit string |
| `Docker.ValidatePositiveInt` | services/docker.py:10-14 | accepts exactly the non-empty strings of at most 4300 characters, all '0'..'9'; an accepted string is its value's rendering after some leading zeros, so the value is determined; a non-digit string is rejected with a message beginning with it; a longer digit string is rejected with `int`'s limit message, which does not |
| `Docker.CountExamples` | services/docker.py:12-14 | `""`, `"-1"`, `"+2"` and `"1.5"` are rejected and `"0"` yields 0 |
| `Docker.LeadingZerosIgnored` | services/docker.py:14 | prefixing zeros to an accepted count does not change the result while the string stays within 4300 digits |
| `Docker.LeadingZerosOverLimit` | services/docker.py:14 | zeros that take a digit string past 4300 digits make `int` reject it with its limit message |
| `Docker.LeadingZerosExample` | services/docker.py:14 | `"007"` yields 7 |
| `Docker.CountRoundTrip` | services/docker.py:12-14 | the decimal rendering of every natural number below `10^4300` is accepted and yields that number |
| `Docker.CountCanonical` | services/docker.py:12-14 | an accepted count without leading zeros is the rendering of the value it yields |
| `Docker.ValidateMemoryFormat` | services/docker.py:16-20 | accepts exactly the strings of length at least 3 whose characters before the last two are digits and whose last two are `M`/`G` then `B`, in any case; on success returns the input unchanged; a rejection carries the message of line 19, which begins with the input |
| `Docker.QuantityAcceptance` | services/docker.py:18 | the source's slice, `isdigit`, `upper` and membership test is equivalent to the character-level definition of a quantity |
| `Docker.UpperCharKeepsClass` | services/docker.py:18 | upper-casing maps digits to digits, unit letters to unit letters, and everything else away from both |
| `Docker.CaseInsensitiveUnit` | services/docker.py:18 | a quantity is accepted exactly when its upper-cased form is |
| `Docker.QuantityIdempotent` | services/docker.py:20 | validating an accepted quantity again gives the same result |
| `Docker.QuantityExamples` | services/docker.py:18-19 | `"100XB"`, `"MB"`, `"5"` and `"1.5GB"` are rejected; `"512mb"`, `"512Mb"` and `"1gB"` are accepted unchanged |
| `Docker.AcceptsEach` | services/docker.py:10-20 | the all-fields rule means `cpu` and `gpu` pass the count rule and `ram` and `storage` pass the quantity rule |
| `Docker.FieldErrors` | services/docker.py:4-20 | the errors raised while validating a request are at most one per field, in declaration order, and each carries the string its field was given |
| `Docker.NewResourceType` | services/docker.py:4-20 | a `ResourceType` exists exactly when every field passes its rule; `cpu` and `gpu` hold the values their validator yields, `ram` and `storage` the strings given; a failure carries the non-empty list of field errors |
| `Docker.ResourceTypeErrorsDescribeInput` | services/docker.py:10-20 | each error of a rejected construction names a field that fails its rule and the string it was given; its message begins with that string, unless `int` refused a count for its length and the message is `int`'s |
| `Docker.ResourceTypeErrorsComplete` | services/docker.py:4-20 | a rejected construction reports a field exactly when that field fails, at most once, in declaration order |
| `Docker.OrderedConcat` | services/docker.py:4-8 | concatenating ordered error lists whose fields do not interleave keeps them in declaration order |
| `Docker.FieldBlocksOrdered` | services/docker.py:4-8 | the four per-field error lists, concatenated in declaration order, are in declaration order |
| `Docker.FieldBlocksMention` | services/docker.py:4-8 | the concatenation of the four per-field error lists mentions a field exactly when that field's own list is non-empty |

## Left out

- `DockerContainer.execute` (services/docker.py:39-66) is left out. Every step of it is a Docker SDK call: image lookup and pull, `containers.run`, `wait`, `logs`, `remove`, and re-wrapping exceptions. The SDK is not part of this model.
- `DockerContainer.validate_resources` (services/docker.py:28-37) is left out. It is an empty stub: the source checks no CPU, GPU, RAM or storage headroom before running a container.
- `execute` sets no timeout on `wait` (services/docker.py:60) and removes the container only when the run succeeds (services/docker.py:62). There is no lifecycle with a deadline or guaranteed cleanup to model.
- The memory validator returns the input string unchanged (services/docker.py:20). It is not parsed into a number and a unit, so the model has no quantity normalisation.
- `DockerContainer.__init__` (services/docker.py:23-26) is left out: it only stores its three arguments.
- The command string `python -c "{code}"` (services/docker.py:54) is left out. It is string interpolation inside the I/O path.
- main.py is not part of this model. It holds the web-application setup, a health-check route, the `PORT` environment variable and the server launch.
- dto/execute.py is not part of this model. Its request and response schemas only declare shapes, and their only behaviour is pydantic's own coercion.
- The 4300-digit limit of `int` is fixed at CPython's default. The `-X int_max_str_digits` option, the `PYTHONINTMAXSTRDIGITS` variable and `sys.set_int_max_str_digits` can change or disable it, and interpreters released before the limit existed have none.
- Digits are the ASCII characters `0`-`9` only, so the model rejects strings the source accepts. Python's `isdigit` is true of other Unicode digits too. The quantity check (services/docker.py:18) never calls `int`, so `"²MB"` and `"٣GB"` are accepted by the source. For counts, `int()` converts any Unicode decimal digit, so `cpu="٣"` is accepted with value 3; only digits that are not decimal, such as `²`, pass `isdigit` and then make `int()` raise.
- `PyStr.Upper`: upper-cases only the ASCII letters. Python's `upper` also maps other letters, and can turn one character into several. No such character becomes `M`, `G` or `B`, so which strings are accepted does not change.
- Pydantic mechanics are left out: registering validators, checking first that each input is a `str`, and wrapping errors in `ValidationError` with its "Value error, " prefix. The model keeps the accept/reject outcome, the stored values, and each error's field, input and message.
