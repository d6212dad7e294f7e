# typedoc-plugin-sourcefile-link, modelled in Dafny

The plugin hooks TypeDoc's `EVENT_RESOLVE_END`. When the event fires, it
visits every reflection and every source reference (`SourceReference`)
attached to it. For each reference that has a file name, it overwrites `url`
with the option `sourcefile-url-prefix`, then the file name, then, if the
option `sourcefile-line-prefix` is non-empty, that prefix and the line
number in decimal. An empty URL prefix (the default) switches the whole
pass off. The code does no escaping and no URL encoding.

Files:

- `decimal.dfy` (module `Decimal`): how a line number is rendered when it
  is concatenated to a string. `NatToDecimal` renders a number and
  `DecimalValue` reads it back; the two are proved inverse.
- `sourcefile_link.dfy` (module `SourcefileLink`): the two option defaults.
  `SourceReference` and `Reflection` are classes, because the pass assigns
  `url` in place. `ComputeUrl` is the concatenation. `UrlAfterPass` is the
  reference definition of one record's new url: the guards at
  src/index.ts:37 and :45 around the assignment at line 46. The contracts of
  `RewriteReflectionSources` and `RewriteSourceLinks` are proved against it.
  The rows for `DisabledPassKeepsUrl`, `AbsentFileNameKeepsUrl`,
  `RewrittenUrl` and `PassIdempotent` carry the properties promised of it. `RewriteSourceLinks` is
  the callback: a loop over the reflections that calls
  `RewriteReflectionSources`, the inner `forEach` over one reflection's
  `sources`.

A reference may be shared between reflections or appear twice in one list.
The proofs do not assume otherwise: writing a record a second time gives the
same url again, because the url is computed only from `fileName` and `line`.

One might expect a second run to prepend the prefix again. It does not:
line 46 builds the url from `fileName` and `line`, never from the old `url`,
so a second run with the same options changes nothing
(`PassIdempotent`, `RewriteTwice`).

## Model

| member | source | states |
|---|---|---|
| `Decimal.NatToDecimal` | src/index.ts:46 | Rendering a line number gives a non-empty string of decimal digits with no leading zero, and it starts with `0` exactly when the number is zero. |
| `Decimal.DecimalRoundTrip` | src/index.ts:46 | Reading back the digits of a rendered number gives that number. |
| `Decimal.CanonicalRoundTrip` | src/index.ts:46 | Rendering the value of any digit string without a superfluous leading zero gives that string back, so rendering is a bijection onto such strings. |
| `Decimal.NatToDecimalInjective` | src/index.ts:46 | Different line numbers render as different strings. |
| `SourcefileLink.ComputeUrl` | src/index.ts:46 | The link starts with the URL prefix followed by the file name. It is exactly that concatenation, with nothing after it, if and only if the line prefix is empty. |
| `SourcefileLink.LineAnchor` | src/index.ts:46 | With a non-empty line prefix, the file name is followed by the line prefix and then only by digits. Those digits are the rendered line number, and reading them gives the line back. |
| `SourcefileLink.LineDeterminesUrl` | src/index.ts:46 | With a line prefix, two links for the same file are equal if and only if their lines are equal. Without a line prefix, the line has no effect on the link. |
| `SourcefileLink.ExampleUrls` | src/index.ts:16-46 | With the default line prefix `#L-`, `src/foo.ts` line 42 links to `<prefix>src/foo.ts#L-42`. With an empty line prefix, `a/b.ts` line 3 links to `<prefix>a/b.ts`. |
| `SourcefileLink.DisabledPassKeepsUrl` | src/index.ts:23-37 | An empty URL prefix, including the default options `""` and `#L-`, leaves the url unchanged whatever the file name, line and line prefix. |
| `SourcefileLink.AbsentFileNameKeepsUrl` | src/index.ts:45 | A reference with an empty or absent file name keeps its url whatever the two prefixes are. |
| `SourcefileLink.RewrittenUrl` | src/index.ts:37-46 | When the URL prefix and the file name are both non-empty, the new url is `urlPrefix + fileName + linePrefix + decimal(line)` if the line prefix is non-empty. Otherwise it is `urlPrefix + fileName`. In either case it does not depend on the url held before. |
| `SourcefileLink.PassIdempotent` | src/index.ts:45-46 | Applying the per-record rewrite to its own result changes nothing. |
| `SourcefileLink.RewriteReflectionSources` | src/index.ts:44-48 | It is called only after the URL prefix is found non-empty, as inside the guard at line 37. Each reference of the reflection ends with `UrlAfterPass` of its url before the call: one with a file name gets `ComputeUrl` of its own fields, the others keep their url. A null reflection, or one with no `sources`, is skipped. Only `url` fields of that reflection's references are written. |
| `SourcefileLink.RewriteSourceLinks` | src/index.ts:37-50 | Each reference attached to any of the given reflections ends with `UrlAfterPass` of its old url, its own file name and line, and the two options. With an empty URL prefix every url is unchanged. `fileName`, `line` and every reflection's `sources` (the count and order of its references) are unchanged, and only `url` fields of those references are written. |
| `SourcefileLink.RewriteTwice` | src/index.ts:41-49 | Two passes in a row with the same options leave every reference exactly as one pass would. |

## Left out

- Option registration through `app.options.addDeclaration` (src/index.ts:19-31) belongs to the host framework. The option values are plain parameters, and their defaults are the constants `DefaultUrlPrefix` and `DefaultLinePrefix`.
- Subscribing to `Converter.EVENT_RESOLVE_END` and reading the options with `getValue(...) as string` (src/index.ts:33-35) are host lifecycle and foreign calls. The caller passes the two strings.
- The host's traversal `project.getReflectionsByKind(ReflectionKind.All)` (src/index.ts:41-42) is replaced by a given sequence of reflections. Reflection kinds and the reflection tree are not modelled.
- JavaScript truthiness on non-string option values is not modelled, and neither is a `line` that is absent, negative, fractional or NaN. `line` is a `nat`, and an absent `fileName` is the empty string.
- Decimal.NatToDecimal: gives the exact decimal digits of every natural number. JavaScript's rendering agrees with that only below 2^53 (`Number.MAX_SAFE_INTEGER + 1`). Above it, a double prints the shortest digit string that reads back to the same value, padded with zeros: `2^60` prints as `1152921504606847000`. From 10^21 on it uses exponent notation (`"1e+21"`). Neither is modelled, because no source line number reaches that size.
- The host's `url` on a source reference is optional and may be unset before the pass. The model gives `url` a string value throughout, and any string stands for "unset". Nothing depends on this, because the pass never reads `url` and a record it skips keeps what it had.
