# siteflags: the flag table and its lookup rules

django-siteflags lets users put flags on any model instance. A flag is a
(user, note, status) marker on an object. This project models the decision
logic of `siteflags/models.py` over an in-memory flag table:

- the filter composition of `update_filter_dict`;
- `set_flag`: an insert that refuses duplicates;
- `remove_flag`: a filtered bulk delete;
- `get_flags` and `is_flagged`: a filtered query and its count;
- `get_flags_for_objects` and `get_flags_for_types`: the loops that group the
  queried flags and rebuild them into a dictionary.

The database is the sequence `rows` of a `FlagStore.Table`. A content type is
an integer tag. A flagged object is a `Target(contentType, objectId)`. A user is
known only by its id: `Some(0)` is a user that was never saved, and `None` means
no user was passed. `time_created` is a number the caller supplies.

Modules, one file each:

- `Wrappers` (wrappers.dfy): `Option`.
- `Flags` (flag.dfy): the `Flag` record, its uniqueness key and the `Unique` table property.
- `Filters` (filters.dfy): filter dictionaries, `UpdateFilterDict`, `Matches`, `Query`/`Reject`, and
  `Admits`, which says what a (user, status) pair lets through without using dictionaries.
- `Recency` (recency.dfy): `order_by('-time_created')` as a stable insertion sort.
- `OrderedDicts` (ordered_dicts.dfy): Python dictionaries, which keep keys in insertion order.
- `Grouping` (grouping.dfy): the `defaultdict(list)` loop (`GroupFlags`) and the loop over the
  input that rebuilds the result (`Reassemble`).
- `FlagStore` (flag_store.dfy): `GetFlags`, `IsFlagged`, the specifications of `set_flag` and
  `remove_flag`, and the `Table` class with its methods.
- `FlagStrings` (flag_string.dfy): `__str__` and a parser that reads it back.
- `Scenarios` (scenarios.dfy): the `get_flags`, `get_flags_for_objects`, `is_flagged` and
  `remove_flag` scenarios of siteflags/tests/test_basic.py, for any articles and any distinct
  saved users.

An unsaved user (one whose `id` is empty) is handled in two ways:

- `get_flags_for_objects` and `get_flags_for_types` return `{}`, and `set_flag` returns `None`
  (siteflags/models.py:81, 125, 236).
- In `get_flags`, `is_flagged` and `remove_flag` it makes `update_filter_dict` return before it
  adds either the user condition or the status condition (siteflags/models.py:298-299). These
  three then act on every flag of the object, and `remove_flag` deletes them all.

`Filters.UnsavedUserDropsEveryCondition` and `FlagStore.RemoveWithUnsavedUserClearsObject` state
the second case.

## Model

| member | source | states |
|---|---|---|
| Filters.UpdateFilterDict | siteflags/models.py:288-304 | the scope is kept; an unsaved user leaves the dictionary unchanged; otherwise a given user sets the user entry, a given status (0 included) sets the status entry, and an absent one leaves its entry as it was |
| Filters.ComposedFilterMeaning | siteflags/models.py:288-304 | a row matches the composed filter exactly when it is in scope and the (user, status) pair admits it: no condition at all for an unsaved user, otherwise user equality if given and status equality if given |
| Filters.ZeroStatusIsACondition | siteflags/models.py:303-304 | status `None` admits a row whose status is NULL, and status 0 rejects that row |
| Filters.UnsavedUserDropsEveryCondition | siteflags/models.py:296-299 | with an unsaved user the composed filter is the bare scope, whatever status was passed |
| Flags.AppendFreshKeyKeepsUnique | siteflags/models.py:55-60 | adding a row whose (content type, object, user, status) key is new keeps every key unique |
| FlagStore.GetFlags | siteflags/models.py:217-226 | a flag is returned exactly when it is in the table, is on the object, and is admitted by the user and status |
| FlagStore.IsFlagged | siteflags/models.py:273-285 | the count is at most the table size, and it is positive exactly when some flag on the object is admitted by the user and status |
| FlagStore.FreshObjectNotFlagged | siteflags/tests/test_basic.py:125-127 | an object with no flags has count 0 for every user and status |
| FlagStore.AtMostOneFlagPerKey | siteflags/models.py:55-60 | with unique keys, a saved user and a status, at most one flag on an object is found |
| FlagStore.SetFlagOutcome | siteflags/models.py:228-257 | nothing is returned exactly when the user is unsaved or the key already exists; otherwise the new flag carries the object, user, status, note (empty when absent) and timestamp |
| FlagStore.SetFlagKeepsInvariant | siteflags/models.py:236-257 | set_flag keeps the keys unique and every flag owned by a saved user |
| FlagStore.SetFlagIdempotent | siteflags/models.py:251-255 | a second set_flag with the same user, object and status returns nothing and leaves the table as the first call left it |
| FlagStore.SetThenFlagged | siteflags/tests/test_basic.py:125-138 | after a saved user flags an object, is_flagged for that user and status is positive; asked with a status, get_flags finds exactly one flag |
| FlagStore.RemoveFlagSpec | siteflags/models.py:259-271 | a row survives exactly when it is not a flag on the object admitted by the user and status; the surviving rows and the get_flags rows together are the old table, so the number deleted is the is_flagged count |
| FlagStore.RemoveThenNotFlagged | siteflags/tests/test_basic.py:140-170 | right after remove_flag, get_flags with the same user and status is empty |
| FlagStore.RemoveWithUnsavedUserClearsObject | siteflags/models.py:259-271 | remove_flag with an unsaved user deletes every flag on the object and nothing else, whatever the status |
| FlagStore.RemoveFlagKeepsInvariant | siteflags/models.py:259-271 | remove_flag keeps the keys unique and every flag owned by a saved user |
| FlagStore.ObjectsGroupMembers | siteflags/models.py:132-143 | an object's group in the objects query holds exactly that object's flags of the given content type admitted by the user and status |
| FlagStore.TypesGroupMembers | siteflags/models.py:84-92 | a type's group in the types query holds exactly that type's flags admitted by the user and status, when the type was asked for |
| FlagStore.TypesGroupNonEmpty | siteflags/models.py:96-104 | a type's group is non-empty exactly when the type was asked for and some flag of that type is admitted |
| FlagStore.TypesGroupNewestFirst | siteflags/models.py:88-92 | every group of the types query is ordered newest first |
| FlagStore.Table.SetFlag | siteflags/models.py:228-257 | returns the set_flag outcome, leaves the table as the set_flag specification says, and keeps the table invariant |
| FlagStore.Table.RemoveFlag | siteflags/models.py:259-271 | leaves the table as the remove_flag specification says and keeps the table invariant |
| FlagStore.Table.GetFlagsForObjects | siteflags/models.py:125-154 | empty input or unsaved user gives an empty dictionary; otherwise the keys are the input pks once each in input order, each value is that object's group (empty when it has no flags), and the lengths add up to the number of queried flags |
| FlagStore.Table.GetFlagsForTypes | siteflags/models.py:81-106 | empty input or unsaved user gives an empty dictionary; otherwise the keys are the input types in input order, all of them with allow_empty and otherwise only those with flags; each value is the type's flags newest first, and the lengths add up to the number of queried flags |
| Grouping.GroupFlags | siteflags/models.py:89-92 | a key is present exactly when some flag has it, and its list is the flags with that key in query order |
| Grouping.Reassemble | siteflags/models.py:94-106 | the dictionary is well formed, its keys are the kept input keys once each in input order, and each value is that key's group |
| Grouping.KeptKeysMembers | siteflags/models.py:100-104 | a key is kept exactly when it is in the input and either allow_empty holds or its group is non-empty |
| Grouping.KeptKeysAllowEmpty | siteflags/models.py:147-152 | with empty entries allowed, every input key is kept in input order |
| Grouping.GroupedDictTotal | siteflags/models.py:140-152 | when a dictionary of groups covers every flag's key, the list lengths add up to the number of flags |
| Grouping.GroupedMembers | siteflags/models.py:91-92 | a group holds exactly the flags with that key |
| Recency.OrderByNewestSpec | siteflags/models.py:88 | the ordered query is newest first and holds exactly the queried rows |
| Recency.FilterKeepsNewestFirst | siteflags/models.py:88-92 | picking rows out of a newest-first sequence keeps it newest first |
| OrderedDicts.Put | siteflags/models.py:101 | assigning a key keeps the dictionary well formed, stores the value, and leaves every other key and value alone |
| OrderedDicts.DedupMembers | siteflags/models.py:147-152 | the key order holds exactly the input keys |
| Scenarios.IsFlaggedScenario | siteflags/tests/test_basic.py:125-138 | an unflagged article has count 0; after user 1 flags it with status 11 it is flagged, flagged for user 1 and for (user 1, status 11), and not flagged for user 2 or for (user 1, status 12) |
| Scenarios.RemoveFlagScenario | siteflags/tests/test_basic.py:140-170 | six flags by three users; removing user 3's leaves 5 and none of user 3, removing user 1's status 13 leaves user 1 two, removing status 11 leaves 2, removing all leaves none; each intermediate table is given |
| Scenarios.GetFlagsScenario | siteflags/tests/test_basic.py:110-123 | after one user flags an article with statuses 1 to 4 and a second user with status 2, get_flags finds 5 flags and get_flags(status=2) finds 2 |
| Scenarios.ObjectsScenarioAll | siteflags/tests/test_basic.py:72-100 | after two users flag the first of three articles and the second user flags the second with status 33, get_flags_for_objects has one key per article, in order, with 2, 1 and 0 flags |
| Scenarios.ObjectsScenarioUser | siteflags/tests/test_basic.py:72-100 | the same lookup for the first user gives 1, 0 and 0 flags |
| Scenarios.ObjectsScenarioStatus | siteflags/tests/test_basic.py:72-100 | the same lookup for status 33 gives 0, 1 and 0 flags |
| FlagStrings.FlagStringRoundTrip | siteflags/models.py:156-157 | parsing `<content type>:<object id> status <status>` gives back the flag's content type, object id and status |
| FlagStrings.FlagStringDistinguishes | siteflags/models.py:156-157 | two flags render alike only when their content type, object id and status agree |

## Left out

- Content type resolution (`ContentType.objects.get_for_model`, `get_for_models`) and the generic
  foreign key (`linked_object`, `GenericRelation`): a content type is an integer tag, and a model
  class passed to `get_flags_for_types` is identified with its tag.
- Proxy models: the model gives each class and each object one tag, so it cannot show a proxy model.
  For one, the two batch lookups and the per-object operations disagree. `set_flag` stores the
  concrete type through the generic foreign key (siteflags/models.py:46, 241). `get_flags` goes
  through `GenericRelation` (siteflags/models.py:170), and `remove_flag` and `is_flagged` use the
  concrete type (siteflags/models.py:267, 281). `get_flags_for_types` and `get_flags_for_objects`
  ask for the proxy's own type (siteflags/models.py:84, 135), so they miss those flags.
- FlagStore.Table.GetFlagsForObjects: takes the content type and the primary keys, not the objects.
  The source takes the content type of the first object for the whole list. A QuerySet input is
  treated like the list of its primary keys.
- FlagStore.SetFlagOutcome, FlagStore.SetFlagIdempotent: the duplicate rule is stated as an
  abstraction. It compares the (content type, object, user, status) key with a NULL status equal
  to a NULL status. The source relies on the database's `unique_together` and catches `IntegrityError`. Real SQL unique
  constraints treat NULLs as distinct, so the database itself may accept two NULL-status flags.
- FlagStore.SetFlagOutcome: column widths are not modelled. `status` is an `IntegerField` and
  `object_id` a `PositiveIntegerField` (siteflags/models.py:30, 39); the model uses unbounded
  `int` and `nat`. `set_flag` catches only `IntegrityError` (siteflags/models.py:251-255), so a
  database error such as an out-of-range value propagates to the caller. The model has no path
  for database errors other than the duplicate, and inserts such a row.
- FlagStore.Table.GetFlagsForTypes: `order_by('-time_created')` leaves the order of flags with
  equal timestamps open. The model keeps them in table order; only "newest first" is promised.
- Timestamps: `auto_now_add` is a number the caller supplies. No clock is modelled.
- Row identity: database primary keys of flags are not modelled. Flags are compared as values.
  Unique keys make two rows of the table different anyway.
- FlagStrings.FlagToString, FlagStrings.FlagStringRoundTrip, FlagStrings.FlagStringDistinguishes:
  Django renders a content type by `ContentType.__str__` (its app label and verbose name, or the
  bare model name for a stale type). The model writes the integer tag. Those names need not be
  unique, so two flags on different content types can render alike in Django. The round trip
  and the distinguishing property hold for the tag rendering only.
- The `ModelWithFlag.get_flags_for_types` and `get_flags_for_objects` class methods
  (siteflags/models.py:175-215) only look up the configured flag model and call through.
  The swappable model setting, admin, migrations, settings and packaging are configuration.
- `get_flags_for_type(with_objects=True)` is called by a test but is not defined in
  siteflags/models.py. The query-count assertions of the tests are about the ORM.
- Concurrency: two concurrent `set_flag` calls race on the database constraint. The model runs
  operations one at a time.
