# Slug assignment of `Slugged.save`

This project models the slug-generating `save` of the `Slugged` model mixin in
`ross/core/models.py` and proves what it does. When a record is saved and its
slug is empty, `save` does the following:

- It reads the configured source attribute. A missing or empty value raises
  `IntegrityError`.
- It slugifies the value and cuts the result to the slug field's `max_length`.
  This gives the base candidate.
- It probes the slugs of the other records of the class. These are all stored
  records, minus the record's own row when its primary key is set.
- While the slug in hand is taken, it tries `base + separator + counter` for
  counter 2, 3, and so on. Before appending the suffix, it shortens the base so
  that the candidate fits `max_length`. The suffix is never cut.
- It raises `IntegrityError` when the counter ends equal to the configured
  limit. Otherwise it stores the slug.

Finally the record goes to the framework's underlying save.

Two modules make up the model:

- `SlugText` (`slug_text.dfy`) covers the string operations the algorithm uses.
  `Decimal` is Python's `'%s' % counter`, and `ParseDecimal` is its inverse.
  `PrefixTo` is Python's `s[:stop]`, including a negative `stop`.
- `SluggedModel` (`slugged.dfy`) covers the rest:
  - the configuration (`Config`, with the source's defaults in `DefaultConfig`);
  - the sibling slugs (`Siblings`);
  - the base candidate (`BaseCandidate`) and the suffixed candidates (`Candidate`, `Probe`);
  - the collision loop, as a method (`ResolveSlug`) proved against a
    specification function (`Stop`);
  - the outcome of the loop and the exhaustion test (`Resolution`);
  - the record itself, as a class `Slugged`. Its fields are `pk`, `source`, `slug`
    and `writes`, and its `Save` method updates `slug` in place.

A few behaviours are modelled as the code has them:

- The limit comes from the attribute `slug_max_iterations`
  (`ross/core/models.py:54`), although the class docstring calls it `max_iterations`.
- The exhaustion test is `counter == limit` (`ross/core/models.py:89`). As a result:
  - the candidate built for counter `limit - 1` is probed but never accepted, even when it is free;
  - a limit of 2 always raises, even when the base is free;
  - a limit below 2 never raises, and it keeps the base even when the base is taken.

  `Resolution` states each of these cases. The class docstring describes the
  limit as how many iterations `save` "will try before it gives up"
  (`ross/core/models.py:37-39`). The `counter == max_interations` test at
  `ross/core/models.py:89` does not keep that promise, and the model follows
  the test.
- When `max_length` is shorter than the suffix, `slug_len - len(suffix)` is
  negative, and Python's slice drops characters from the end of the base.
  The candidate is then longer than `max_length`. `Candidate` states this.
- The base is shortened only as far as the suffix needs
  (`ross/core/models.py:84-86`). With a maximum length of 5, the base `abcde`
  and counter 2 give `abc-2`, which fills the five characters.
  `TruncatedCandidates` states this.
- Python truthiness is written out:
  - `Truthy` is the test on the slug and on the source value (`ross/core/models.py:50`, `:69`);
  - `PkSet` is the test on the primary key (`:64`);
  - `Limited` is the test on the maximum length (`:71`, `:84`).
- `Config` gathers the attributes read at `ross/core/models.py:52-59`.
  `DefaultConfig` holds their defaults, with the maximum length 200 declared at `:47`.

## Model

| member | source | states |
|---|---|---|
| `SlugText.Decimal` | ross/core/models.py:83 | the counter's text is non-empty, all decimal digits, and without a leading zero unless the counter is 0 |
| `SlugText.DecimalRoundTrip` | ross/core/models.py:83 | reading the counter's text back as a decimal number gives the counter |
| `SlugText.DecimalInjective` | ross/core/models.py:83 | distinct counters give distinct suffix texts |
| `SlugText.DecimalLengthMonotone` | ross/core/models.py:83-85 | a larger counter never gives a shorter text, so the suffixes only grow as the loop advances |
| `SlugText.PrefixTo` | ross/core/models.py:85 | Python's `s[:stop]` is a prefix of `s`: the first `stop` characters, or all but the last `-stop` when `stop` is negative, clamped to the string |
| `SluggedModel.Siblings` | ross/core/models.py:60-65 | a slug is a sibling slug exactly when some stored row other than the record's own row holds it. The record's own row is skipped only when its primary key is truthy |
| `SluggedModel.OwnRowNeverCollides` | ross/core/models.py:60-65 | when the primary key is set, whatever slug the record's own stored row holds never changes the set of sibling slugs |
| `SluggedModel.NewRecordSeesAllRows` | ross/core/models.py:60-65 | without a primary key, a slug is a sibling slug exactly when some stored row holds it |
| `SluggedModel.BaseCandidate` | ross/core/models.py:70-73 | the base is a prefix of the slugified value; with a maximum length in force it is at most that long, and exactly that long when the value was longer; with no limit, or a value that fits, it is the value unchanged |
| `SluggedModel.SuffixReadsBack` | ross/core/models.py:83 | the suffix starts with the separator, and the rest is decimal digits that read back as the counter |
| `SluggedModel.Candidate` | ross/core/models.py:82-86 | the candidate ends with the whole suffix `separator + decimal(counter)`, and what precedes it is a prefix of the base. It is `base + suffix` when there is no limit or the pair fits. When the limit is at least the suffix length, it fits the limit, with exactly the limit's length when the base had to be shortened. When the limit is below the suffix length, Python's negative slice drops characters from the end of the base. The candidate is then longer than the limit: it has the length of the base plus the limit, or the suffix's length if that is larger |
| `SluggedModel.ProbeShape` | ross/core/models.py:78-86 | the first slug probed is the base. Each later probe ends with the whole suffix for its counter, after a prefix of the base. A probe fits the maximum length when the base and its suffix both fit |
| `SluggedModel.Stop` | ross/core/models.py:78-87 | the loop stops at the least counter from its start whose slug is free or which has reached the limit. Every slug probed before the stop was taken, and the counter never moves past the limit |
| `SluggedModel.ResolveSlug` | ross/core/models.py:77-87 | the loop's final counter is `Stop` from 2, and its slug is the probe for counter − 1, in the order base, counter 2, 3, …. One query is issued per counter value reached: at most max(1, limit − 1) queries, and the counter ends at most max(2, limit) |
| `SluggedModel.Resolution` | ross/core/models.py:77-90 | the only error is "unable to locate unique slug". A limit below 2 yields the base. With a limit of at least 2, an assigned slug is not among the siblings. The error occurs exactly when the limit is 2, or when the limit exceeds 2 and the first limit − 2 probes are all taken |
| `SluggedModel.AssignedIsFirstFree` | ross/core/models.py:78-92 | with a limit of at least 2, an assigned slug is the probe at some position j ≤ limit − 2, and every probe before j is taken. So it is the first free one, and the candidate for counter limit − 1 is never accepted |
| `SluggedModel.FirstFreeIsAssigned` | ross/core/models.py:78-92 | conversely, when probe j ≤ limit − 2 is the first free one, it is the slug assigned |
| `SluggedModel.AssignedFitsMaxLength` | ross/core/models.py:70-92 | when the base fits the maximum length and the suffix for the limit fits it too, the assigned slug fits |
| `SluggedModel.Slugged.Save` | ross/core/models.py:49-94 | a set slug is left untouched and the record is written. Otherwise, a missing or empty source value raises the missing-source error and leaves the slug and the store untouched. Otherwise the outcome is `Resolution` on the siblings and the base candidate: its slug is stored and the record written, or its error is raised with nothing changed. The primary key and source value never change |
| `SluggedModel.SequentialSaves` | ross/core/models.py:77-92 | with the defaults, records whose source slugifies to `foo` saved one after another get `foo`, `foo-2` and `foo-3` |
| `SluggedModel.SaveThreeInSequence` | ross/core/models.py:49-94 | three new records whose source is `foo` are saved one after another through `Save`. Each stored slug joins the table before the next save, and the records get `foo`, `foo-2` and `foo-3` |
| `SluggedModel.TruncatedCandidates` | ross/core/models.py:70-86 | with a maximum length of 5, `abcdefgh` gives the base `abcde`, and counter 2 gives `abc-2` |

## Left out

- `Timestamped` (ross/core/models.py:11-19) only declares two date-time fields that the framework fills from the wall clock. There is no algorithm to model.
- setup.py is packaging metadata, plus reading `requirements.txt` from disk.
- `slugify` is a library function whose code is not part of this model. It is a parameter of `Save`, and nothing is assumed about the characters it produces.
- The ORM (`objects.all()`, `exclude`, `filter(...).count()`, `_meta.get_field`) is replaced by a map from primary key to stored slug. The uniqueness query is a membership test on the resulting sibling set.
- The underlying `super().save` is modelled only as the count `writes`. Assigning a primary key and storing the row belong to the framework.
- The query and the write are not atomic, so concurrent saves can race between them. The model is sequential: the store does not change during a save.
- `slug_field_name` other than `slug` is not modelled. The model writes the slug to the same field that the guard at line 50 reads.
- The source attribute is modelled as an optional string. Python truthiness of values of other types (numbers, lists) is not modelled.
- `slug_max_iterations`, the separator and the maximum length are fields of `Config` rather than looked up by attribute name. `DefaultConfig` holds the defaults.
- The exception messages are reduced to the two `SaveError` cases, and the missing-source case keeps the field name.
- Translation strings and field metadata (`help_text`, `null`, `blank`) are left out.
