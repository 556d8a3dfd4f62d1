# Stub-package metadata and the pylint gate of cookicutter_v1

This project models two pieces of the `cookicutter_v1` build scripts in Dafny
and proves what they promise.

**The stub-package template** (`publishstubs.py`, module `PublishStubs`):

- `SetupTemplate` is a record.
- `from_project_information` fills the record from a few project facts plus fixed defaults.
- The `package_data` property maps every stub package to the `.pyi` globs.
- `auto_generate_setup_script` renders the `setup.py` text.
- The "-stubs" naming that `_bootstrap_stubs_project` applies before it renders.

The renderer writes the five descriptive strings and `python_requires` between
single quotes, unescaped. It writes lists, dicts and booleans through Python's
`repr`. Three supporting modules model what that needs:

- `PyRepr`: `repr` of `str`, `list[str]`, `dict` and `bool`. It includes the
  quote choice and escapes of `str`, and a reader for a `str` literal, which is
  the partner that `repr` is proved against.
- `PyDict`: an insertion-ordered Python dict as a sequence of pairs with
  distinct keys, built by a dict comprehension.
- `Text`: counting and splitting lines.

**The lint gate** (`tasks.py`, module `Tasks`):

- pylint's bit-encoded exit status: 1 fatal, 2 error, 4 warning, 8 refactor,
  16 convention, 32 usage error.
- The test in `do_linting` that decides whether a run aborts validation.
- The run over `./src` and then `./test`, which stops at the first aborting status.

Python's `&` is modelled bit by bit with floor division, as Python computes it.

## Model

| member | source | states |
|---|---|---|
| PublishStubs.FromProjectInformation | cookicutter_v1/publishstubs.py:91-135 | `install_requires` is the one-element list `source==version`; the description names the source package; `name`, `version`, `packages` and `package_dir` pass through unchanged; author, e-mail, `python_requires`, `include_package_data` and `zip_safe` always get the same defaults |
| PublishStubs.PackageDataKeys | cookicutter_v1/publishstubs.py:86-89 | `package_data` has a key exactly for each package, no key twice, and the keys in package order (equal to the package list when the packages are distinct); every key maps to `["*.pyi", "**/*.pyi"]` |
| PyDict.FromKeysSpec | cookicutter_v1/publishstubs.py:89 | a dict comprehension over a list holds only the list's items, all mapped to the one value; it covers every item, in order of first occurrence |
| PyDict.FromKeysDistinct | cookicutter_v1/publishstubs.py:89 | a comprehension over a list without repeats has exactly that list as its keys |
| PublishStubs.SetupScript | cookicutter_v1/publishstubs.py:137-163 | the rendered text begins with `from setuptools import setup\n\nsetup(\n` and ends with `)`, with no line feed after it |
| PublishStubs.ScriptNewlines | cookicutter_v1/publishstubs.py:147-161 | the script holds at least 15 line feeds; it holds exactly 15 if and only if none of the six values written unescaped holds a line feed |
| PublishStubs.ScriptLines | cookicutter_v1/publishstubs.py:147-161 | when those values are single lines, the script's lines are the import, a blank line, `setup(`, then the twelve `    key=value,` lines in the fixed order, then `)` |
| PublishStubs.ArgumentTexts | cookicutter_v1/publishstubs.py:149-160 | the twelve argument lines in order: `name`, `version`, `description`, `author`, `author_email` and `python_requires` between single quotes; `packages`, `package_dir`, `install_requires`, `include_package_data`, `package_data` and `zip_safe` as their `repr` |
| PublishStubs.FormatOneLine | cookicutter_v1/publishstubs.py:149-160 | a value breaks its line if and only if it is written between quotes unescaped and holds a line feed; every `repr` is one line |
| PublishStubs.FieldsOneLine | cookicutter_v1/publishstubs.py:149-160 | every argument line is a single line exactly when the six unescaped values are |
| PyRepr.ReprStrRoundTrip | cookicutter_v1/publishstubs.py:154-159 | the `repr` of every string in the lists and dicts reads back as that string |
| PyRepr.ReprStrPlain | cookicutter_v1/publishstubs.py:154-159 | a string without quotes, backslashes or control characters is written as itself between single quotes |
| PyRepr.ReprListOneLine | cookicutter_v1/publishstubs.py:154 | the `repr` of a list of strings holds no line feed |
| PyRepr.ReprDictOneLine | cookicutter_v1/publishstubs.py:155 | the `repr` of a dict holds no line feed when its values' `repr`s hold none |
| PublishStubs.SourceName | cookicutter_v1/publishstubs.py:280-283 | removing the `-stubs` suffix, when there is one, gives back a name whose stub name is the input; with no suffix there is nothing to remove |
| PublishStubs.StubNameRoundTrip | cookicutter_v1/publishstubs.py:280-283 | adding `-stubs` loses nothing: the name comes back when the suffix is removed |
| PublishStubs.StubPackagesSpec | cookicutter_v1/publishstubs.py:280 | one stub package per package, same length and order, each `p + "-stubs"` of its own package; the stub packages are distinct if and only if the packages are |
| PublishStubs.BootstrapTemplate | cookicutter_v1/publishstubs.py:280-287 | the rendered template is named `<project>-stubs`, requires the unsuffixed project at the same version, and describes the project; it keeps the version and the `src` layout, and has one `-stubs` package per package |
| PublishStubs.BootstrapPackageData | cookicutter_v1/publishstubs.py:280-287 | for packages named once each, `package_data` of that template maps exactly the stub packages, in order, to the stub globs |
| PublishStubs.FactoryOneLine | cookicutter_v1/publishstubs.py:121-135 | a factory-made template writes no unescaped line feed unless its name, source package or version holds one |
| PublishStubs.BootstrapScript | cookicutter_v1/publishstubs.py:280-291 | the `setup.py` written for a project, with name and version on one line each, is exactly its sixteen lines: the `-stubs` name, the version, the description, the defaults, the stub packages, `{'': 'src'}`, `['<project>==<version>']` and the stub globs |
| Tasks.BitAndSingle | cookicutter_v1/tasks.py:20 | `2**k & n` is `2**k` when bit `k` of `n` is set and 0 otherwise |
| Tasks.InCategories | cookicutter_v1/tasks.py:20 | a status signals a category exactly when that category's bit is set |
| Tasks.StopsOnBits | cookicutter_v1/tasks.py:20-22 | a status stops validation if and only if it has the bit for 1, 2 or 32 set |
| Tasks.StopsOnAborting | cookicutter_v1/tasks.py:20-22 | validation stops exactly when pylint signalled a fatal message, an error or a usage error |
| Tasks.CleanRunContinues | cookicutter_v1/tasks.py:20 | exit status 0 never stops validation |
| Tasks.GuardRedundant | cookicutter_v1/tasks.py:20 | the leading `pylint_ret and` changes nothing: the bit tests alone already reject 0 |
| Tasks.PackBit | cookicutter_v1/tasks.py:20 | bit `k` of a number packed from flags is the `k`-th flag |
| Tasks.BitOfCode | cookicutter_v1/tasks.py:20 | the status pylint gives for a set of categories has a category's bit set exactly when the set holds that category |
| Tasks.CategoriesOfCode | cookicutter_v1/tasks.py:20 | reading the categories back from a status loses nothing |
| Tasks.StyleOnlyContinues | cookicutter_v1/tasks.py:20 | statuses made only of warnings, refactoring hints and conventions (4, 8, 16) never stop validation |
| Tasks.DoLinting | cookicutter_v1/tasks.py:16-22 | `do_linting` exits if and only if an aborting category was signalled, and the exit status it passes on is pylint's own |
| Tasks.Validate | cookicutter_v1/tasks.py:16-25 | `./src` is linted first; `./test` is linted second, and only if `./src` did not stop validation; validation exits exactly when the last status linted stops it, passing that status on |

## Left out

- Filesystem work is left out: creating the stub project's directories, moving and deleting them, and writing `setup.py` to disk. The model ends with the text that would be written.
- The `mypy` stub generator, the `python -m build` subprocess and its glob over `dist` are left out. They are calls into tools whose code is not part of this model.
- The `__main__` blocks and the prints are left out.
- The `pyflakes`, `black`, `mypy` and `build` invocations in `tasks.py` are left out. So are `generatestubs` and the commented-out `clean`, `setversion` and `publish` tasks. All of these are shell-outs or not live code.
- `cookicutter_v1/setup.py` is left out. It is build configuration with no logic of its own.
- Tasks.Validate: `context.run` is a parameter mapping each path to the exit status pylint ends with. The command itself, its echo and the `print` of the code are not modelled.
- Tasks.DoLinting: the status is the value handed to `sys.exit`. The operating system's truncation of it to 8 bits is not modelled.
- PublishStubs.SetupScript: `auto_generate_setup_script` is modelled as one concatenation of its fourteen appends, not as fourteen assignments to a local string. A step-by-step method version was too costly to prove.
- `SetupTemplate.__init__` only stores its arguments, and nothing updates them afterwards. It is the datatype constructor `PublishStubs.SetupTemplate`, with no contract of its own.
- PyRepr.ReprStr: characters above U+00FF are treated as printable. Python escapes some non-printable characters in that range, and those escapes are not modelled.
- The model follows the code where the type annotations disagree with it. `package_data` is a dict, although it is annotated `list[str]`. `install_requires` is a one-element list, although it is annotated `str`.
