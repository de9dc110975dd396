# DocFX YAML to Docusaurus Markdown converter, modelled in Dafny

The converter reads DocFX API metadata (`*.yml` files holding a list of
`items`) and writes one Markdown page per item. This project models what it
does for one item:

- **`sanitize_filename`** (`Sanitize.SanitizeFilename`). It deletes the 19
  characters of the regular-expression class at line 20 (the source's
  comment calls them Windows-illegal, though only `<>:"/\|?*` are). A cleaned uid of more
  than 100 characters is cut to 80, then a `-` and 8 hex digits of the uid's
  MD5 digest are appended.
- **`sanitize_id`** (`Sanitize.SanitizeId`). It replaces 18 problem
  characters (the same set minus the backslash) by `.`, one for one. The
  length rule is the same.
- **`escape_yaml_string`** (`Sanitize.EscapeYamlString`). It puts a
  backslash before every double quote and wraps the result in double quotes.
- **The loop body over `data['items']`**:
  - `Render.Page` builds the page text: YAML frontmatter with the page id and
    quoted title, the `# name` heading, the `**Type**:` line, then the
    optional sections Inheritance, Summary, Syntax, Parameters and Returns;
  - `Render.OutputFilename` gives the name of the file the page goes to;
  - `Render.RenderItem` is the imperative version: `md +=` on a local
    string, with the inner loop over the parameters. It is proved to produce
    exactly `Page` and `OutputFilename`. `Render.RenderItems` runs it over
    the list of items.

An item is a datatype whose fields are all optional (`Option`). An absent
field takes the default that the code's `.get` gives it. The fields `type`
and `returns` are named `itemType` and `returnsInfo`, because `type` and
`returns` are Dafny keywords. Python truthiness is modelled as
non-emptiness. `raw_name.strip()` being empty is modelled by `Text.IsBlank`:
every character is one that Python's `str.isspace` accepts.

MD5 is not modelled. The sanitisers take a parameter
`digest: string -> HexDigest`. It stands for
`hashlib.md5(uid.encode('utf-8')).hexdigest()[:8]`: any function from the
uid to 8 lowercase hex digits.

The inheritance separator at `convert_docfx_yaml_to_md.py:88` is stored in
the file as the bytes `c3 a2 e2 80 a0 e2 80 99`. This is an arrow that was
mis-encoded once. The string Python joins with is therefore space, U+00E2,
U+2020, U+2019, space. `Render.InheritanceSeparator` is exactly that string.

In `Render.HeaderLines`, the f-string at lines 75-84 is written as nine
lines. Laid end to end they are the same text (`Render.ConcatNine` and
`Render.RenderItem`). The five `if` blocks at lines 86-106 are one method
each for the five section kinds (`Render.EmitSection`), called in source
order by `Render.AppendSections`.

## Model

| member | source | states |
|---|---|---|
| Sanitize.StripIllegal | convert_docfx_yaml_to_md.py:20 | deleting characters never makes the string longer |
| Sanitize.StripIllegalLegal | convert_docfx_yaml_to_md.py:20 | no character of the regular-expression class `<>:"/\|?*@()#`,[]{}` survives the substitution |
| Sanitize.StripIllegalConcat | convert_docfx_yaml_to_md.py:20 | the deletion works character by character: it distributes over concatenation, drops an illegal single character and keeps any other, so the kept characters stay in order |
| Sanitize.StripIllegalClean | convert_docfx_yaml_to_md.py:20 | a string with no illegal character comes out unchanged |
| Sanitize.SanitizeFilename | convert_docfx_yaml_to_md.py:18-27 | a file name is at most 100 characters long |
| Sanitize.SanitizeFilenameShape | convert_docfx_yaml_to_md.py:18-27 | no illegal character in the result; a cleaned uid of at most 100 characters is returned as it is; a longer one gives exactly 89 characters: its first 80, then '-', then the 8 digest characters of the uid |
| Sanitize.SanitizeFilenameIdempotent | convert_docfx_yaml_to_md.py:18-27 | sanitising a sanitised file name again changes nothing, for any digest |
| Sanitize.ReplaceProblems | convert_docfx_yaml_to_md.py:30 | the substitution keeps the length |
| Sanitize.ReplaceProblemsAt | convert_docfx_yaml_to_md.py:30 | one-for-one replacement: each character becomes '.' exactly when it is in the class `/:<>"\|?*@()#`,[]{}` and stays as it is otherwise, backslash included |
| Sanitize.SanitizeId | convert_docfx_yaml_to_md.py:29-34 | a page id is at most 100 characters long |
| Sanitize.SanitizeIdShape | convert_docfx_yaml_to_md.py:29-34 | no problem character and no ':' in the result; a uid of at most 100 characters keeps its length and every other character at its position; a longer one gives 89 characters: the replaced form of its first 80, then '-', then the 8 digest characters |
| Sanitize.SanitizeIdIdempotent | convert_docfx_yaml_to_md.py:29-34 | sanitising a sanitised page id again changes nothing, for any digest |
| Sanitize.EscapeQuotesShape | convert_docfx_yaml_to_md.py:38 | `replace('"', '\\"')` adds one character per double quote, leaves every double quote right after a backslash, and never starts with a double quote |
| Sanitize.EscapeYamlStringShape | convert_docfx_yaml_to_md.py:36-39 | the quoted value starts and ends with a double quote, has length `\|s\| + 2 +` the number of double quotes in `s`, and every double quote strictly inside comes right after a backslash |
| Sanitize.UnescapeEscape | convert_docfx_yaml_to_md.py:38 | replacing each `\"` by `"` from left to right undoes the escaping |
| Sanitize.EscapeYamlStringRoundTrip | convert_docfx_yaml_to_md.py:36-39 | stripping the outer quotes of the quoted value and unescaping gives back the original string |
| Render.Uid | convert_docfx_yaml_to_md.py:57 | the uid is the item's uid when that is present and non-empty, "unknown" otherwise, and never empty |
| Render.DisplayName | convert_docfx_yaml_to_md.py:58-59 | the name shown is the item's name when it is present and not blank, the uid otherwise, and never empty |
| Render.OutputFilenameShape | convert_docfx_yaml_to_md.py:108 | the output file name is `sanitize_filename(uid)` followed by ".md": at most 103 characters, and no illegal character before the suffix |
| Render.SectionsInOrder | convert_docfx_yaml_to_md.py:86-106 | the sections appear in the order Inheritance, Summary, Syntax, Parameters, Returns, and the section of each kind is on the page exactly when the item's field behind it is non-empty |
| Render.SectionsMembers | convert_docfx_yaml_to_md.py:86-106 | the page's sections are in rank order and are exactly those candidate sections whose field is non-empty |
| Render.AppendWhen | convert_docfx_yaml_to_md.py:86-106 | one more `if` of the chain keeps the emitted sections ordered and adds exactly its own section when present |
| Render.PageBlockAt | convert_docfx_yaml_to_md.py:75-106 | the page is its blocks laid end to end: each header line and each section's Markdown occurs unchanged at its own offset, later blocks at later offsets |
| Render.HeaderFrontmatter | convert_docfx_yaml_to_md.py:67-78 | the frontmatter opens and closes with `---`; the id line is `id: ` and a value without ':'; the title line is `title: ` and a quoted value that reads back as the displayed name |
| Render.PageSectionAt | convert_docfx_yaml_to_md.py:86-106 | each present section's Markdown follows the nine header lines and the sections before it |
| Render.ParameterBulletAt | convert_docfx_yaml_to_md.py:96-103 | the Parameters section holds one bullet `- **id** (type): description` per parameter, in input order, and a missing key renders as empty |
| Render.InheritanceEntryAt | convert_docfx_yaml_to_md.py:86-88 | the Inheritance section lists the entries in input order, with exactly one separator between neighbours |
| Render.UnsafeIdNeverReported | convert_docfx_yaml_to_md.py:67-70 | the page id never contains ':', so the "UNSAFE ID" branch can never be taken |
| Render.FilenamesCollide | convert_docfx_yaml_to_md.py:18-34 | two items whose uids differ only in deleted characters (`M()` and `M`) get different page ids but the same output file name; the write itself is I/O, so in the model the collision shows as two entries of `RenderItems`' result with the same file name, the later one replacing the earlier page on disk |
| Render.AppendSection | convert_docfx_yaml_to_md.py:86-106 | emitting one more section appends its Markdown when it is present and nothing otherwise |
| Render.ConcatNine | convert_docfx_yaml_to_md.py:75-84 | the nine header lines laid end to end are the f-string's text |
| Render.EmitSection | convert_docfx_yaml_to_md.py:86-106 | one `if` block appends the section's Markdown when its field is non-empty and leaves `md` unchanged otherwise |
| Render.AppendParameterLines | convert_docfx_yaml_to_md.py:98-102 | the loop over the parameters appends one bullet per parameter, in order |
| Render.AppendSections | convert_docfx_yaml_to_md.py:86-106 | the `if` chain appends, in page order, the Markdown of exactly the sections whose field is non-empty |
| Render.AppendNext | convert_docfx_yaml_to_md.py:86-106 | after one more `if` block the text is still the start of the page followed by the Markdown of the sections emitted so far |
| Render.RenderItem | convert_docfx_yaml_to_md.py:56-108 | the loop body builds exactly `Page(item)` and picks exactly `OutputFilename(item)` |
| Render.RenderItems | convert_docfx_yaml_to_md.py:56-115 | the loop over `items` writes one file per item, in order, each with that item's file name and page |
| Text.ConcatPlus | convert_docfx_yaml_to_md.py:75-106 | the text of two block lists laid end to end is the text of the first, then of the second |
| Text.ConcatAt | convert_docfx_yaml_to_md.py:75-106 | every block occurs unchanged at its offset, and the offsets follow the order of the blocks |
| Text.JoinSplit | convert_docfx_yaml_to_md.py:88 | `sep.join` splits at any inner index into the left join, one separator and the right join |
| Text.JoinAt | convert_docfx_yaml_to_md.py:88 | every entry of `sep.join(xs)` occurs unchanged at its offset, followed by one separator when another entry comes |

## Left out

- Listing the input directory, the `.yml` filter, `os.makedirs`, opening
  and reading the files, writing the pages and the `OSError` handling are
  I/O (`convert_docfx_yaml_to_md.py:9`, `41-51`, `109-115`). Writing is
  modelled only as the list of (file name, content) pairs that
  `Render.RenderItems` returns.
- YAML loading and `IgnoreUnknownTagsLoader` belong to a foreign library
  (`convert_docfx_yaml_to_md.py:12-16`, `48`). Items arrive already parsed.
  So does the check that a file has `items` (`convert_docfx_yaml_to_md.py:53-54`).
- MD5 is a foreign call (`convert_docfx_yaml_to_md.py:24`, `32`). It is the
  `digest` parameter described above.
- The `print` diagnostics are logging only (`convert_docfx_yaml_to_md.py:50`,
  `70`, `72`, `117`). `Render.UnsafeIdNeverReported` shows that the
  warning at line 70 never fires.
- YAML values that are not strings or lists are left out. Examples are
  `null`, numbers, and a `syntax` key holding `null`, on which `.get` would
  raise. So is their `str()` conversion. Every field is an optional string,
  list or mapping.
- Unicode is taken as a sequence of code points. The digest of
  `uid.encode('utf-8')` is taken as a function of the uid.
- Sanitize.UnescapeEscape and Sanitize.EscapeYamlStringRoundTrip read the quoted value back with the
  model's own inverse: drop the outer quotes, then turn each `\"` into `"`.
  This is not YAML's reading of a double-quoted scalar. YAML would also
  treat a backslash that is not escaped as an escape.
