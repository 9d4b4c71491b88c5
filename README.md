# Road-Archiver core, modelled in Dafny

Road-Archiver stores road networks uploaded as GeoJSON FeatureCollections. Each
network belongs to the user who uploaded it. Each feature of the file becomes a
road edge that records its geometry (SRID 4326), its well-known attributes
(`name`, `ref`, `lanes`, `oneway`, `length`, `width`, `tunnel`) and every other
property in `extra_properties`. Users have one of four roles. A small user service
creates, reads and deletes them. A migration filter keeps schema autogeneration
away from the tables and schemas of the PostGIS extension.

This project models:

- the record schema, in module `Models` (`models.dfy`): roles, users, networks, edges and their column defaults;
- the database behind a SQLAlchemy session, in module `Store` (`store.dfy`):
  - the three tables, with the unique, not-null and foreign-key rules;
  - the cascade from a network to its edges;
  - a `Session` class whose pending state only becomes visible on commit and is discarded on rollback;
- the Python built-ins the ingest path relies on, in module `PyValues` (`py_values.dfy`): `dict.get`, truthiness, `str`, `float`, `",".join`, iteration, and list comprehensions that abort on the first exception;
- the ingest service, in module `RoadNetworkService` (`road_network_service.dfy`): `normalize_lanes`, `normalize_width`, `create_road_edge` and `upload_road_network`;
- the user service, in module `UsersService` (`users_service.dfy`): `create_user`, `get_user_by_id`, `get_user_by_email` and `delete_user`;
- the migration filter `include_object`, in module `AlembicEnv` (`alembic_env.dfy`).

Each service operation is a function from the committed tables (and the request)
to a reply and the new state. The operations that write to the database are also
methods on a `Session`, and each method is proved to match its function.

The model keeps some behaviour of the code exactly as written:

- **Timestamp defaults.** Each timestamp column defaults to its own `datetime.now(UTC)`, evaluated once, in its class body, when the module is imported. So the network column and the edge column have two separate fixed instants (`Models.ImportTimes`, held by `Session.importTimes`). The upload never sets an edge's timestamp, so every edge is stamped with the edge column's import-time instant, not the upload time. A network is given the file's `timestamp`, or the current time when the file has none. A `null` timestamp leaves the attribute None, which the ORM omits from the INSERT, so that network gets the network column's import-time instant.
- **`"properties": null`.** A feature whose properties are JSON `null` (valid GeoJSON, section 3.2 of RFC 7946) fails with AttributeError. That one feature fails the whole upload. See "## Findings".
- **`get_user_by_id` on a missing key.** When the caller is not ADMIN, the function reads `user.id` before it checks whether the user exists. So a missing key raises AttributeError rather than answering 404.

## Model

| member | source | states |
|---|---|---|
| Models.ParseRole | app/db/models.py:22-33 | a string parses to a role only if it is that role's value |
| Models.RolesAreExactlyFour | app/db/models.py:22-33 | each role round-trips through its string value; exactly the four names ADMIN, MODERATOR, USER, GUEST parse |
| Models.NewUser | app/db/models.py:36-47 | a user built in memory has no key until it is flushed |
| Models.NewUserDefaultRole | app/db/models.py:45-47 | a user created without a role is a USER |
| Models.NewRoadEdge | app/db/models.py:73-97 | a new edge has the given geometry, network and user, and no timestamp yet |
| Models.EdgeColumnDefaults | app/db/models.py:77-88 | an edge built from the required columns only is current, has empty extra properties and NULL optional attributes |
| Store.InsertUserConstraints | app/db/models.py:40-43 | inserting a user keeps the database valid exactly when neither its username nor its email is already taken |
| Store.RemovedUserPresence | app/db/models.py:39 | after a user row is removed, a key is present exactly when it was present before and was not the removed user's |
| Store.RemovedUserRowsValid | app/db/models.py:39-43 | removing a user row keeps keys, usernames and emails unique |
| Store.RemoveUserConstraints | app/db/models.py:49-52 | deleting a user keeps the database valid exactly when no network and no edge still references that user (there is no cascade from users) |
| Store.InsertNetworkWithEdges | app/db/models.py:58-97 | a named network owned by an existing user, inserted with edges that reference it, an existing user and SRID 4326, leaves the database well-formed; the network and the edges get their own columns' default timestamps |
| Store.RemovedNetworkPresence | app/db/models.py:58 | after a network row is removed, a key is present exactly when it was present before and was not the removed network's |
| Store.CascadeNetworkRows | app/db/models.py:55-70 | removing a network keeps the network rows valid and the key sequences ahead |
| Store.CascadeDelete | app/db/models.py:68-70 | deleting a network removes it and exactly its edges, and the database stays well-formed |
| Store.Session.constructor | app/db/models.py:36-101 | a new session starts on a well-formed committed state with nothing pending |
| Store.Session.AddNetworkAndFlush | app/api/v1/services/road_network_service.py:73-74 | flushing a network inserts it in the open transaction and hands out the next key; nothing is committed |
| Store.Session.BulkSaveEdges | app/api/v1/services/road_network_service.py:83 | the edges are appended to the pending state, stamped with the edge column's default |
| Store.Session.AddUser | app/api/v1/services/users_service.py:21 | the user is appended to the pending state with the next key |
| Store.Session.DeleteUserAt | app/api/v1/services/users_service.py:62 | the user row is removed from the pending state |
| Store.Session.DeleteNetwork | app/db/models.py:68-70 | deleting a network removes it and its edges from the pending state |
| Store.Session.Commit | app/api/v1/services/road_network_service.py:84 | a commit succeeds exactly when the database does not fail and the pending state meets every constraint; the committed state then becomes the pending one, otherwise it is unchanged |
| Store.Session.Rollback | app/api/v1/services/road_network_service.py:89 | a rollback discards the pending changes and restores the committed state |
| PyValues.Lookup | app/api/v1/services/road_network_service.py:38-41 | `dict.get` finds a value exactly when the key is present, and the value found is stored under that key |
| PyValues.Without | app/api/v1/services/road_network_service.py:53 | the filtered dict keeps only members of the original whose key is not dropped |
| PyValues.WithoutLookup | app/api/v1/services/road_network_service.py:53 | a dropped key is absent from the filtered dict; every other key keeps its value |
| PyValues.WithoutKeys | app/api/v1/services/road_network_service.py:53 | the filtered dict's keys are the original keys minus the dropped ones |
| PyValues.NatTextRoundTrip | app/api/v1/services/road_network_service.py:15-17 | `str` of a natural number is all digits and reads back as the same number |
| PyValues.IntTextRoundTrip | app/api/v1/services/road_network_service.py:15-17 | `int(str(i)) == i` for every integer |
| PyValues.IntTextHasNoComma | app/api/v1/services/road_network_service.py:15 | an integer's `str` never contains the lanes separator |
| PyValues.IndexOf | app/api/v1/services/road_network_service.py:15 | the index found holds the first occurrence of the character |
| PyValues.Split | app/api/v1/services/road_network_service.py:15 | splitting always yields at least one part |
| PyValues.SplitAtFirst | app/api/v1/services/road_network_service.py:15 | splitting at a first separator yields the text before it and then the split of the rest |
| PyValues.SplitJoin | app/api/v1/services/road_network_service.py:15 | splitting a `sep.join(parts)` on `sep` gives the parts back, when there is at least one part and none contains `sep` |
| PyValues.Comprehension | app/api/v1/services/road_network_service.py:78-81 | a list comprehension returns exactly when every element does, one result per element in order; otherwise it raises the first element's exception |
| PyValues.Iterate | app/api/v1/services/road_network_service.py:76-80 | iteration fails exactly on values that are not lists, strings or dicts; a string or a dict yields strings |
| RoadNetworkService.Texts | app/api/v1/services/road_network_service.py:15 | `map(str, items)` has one string per item |
| RoadNetworkService.NormalizeLanes | app/api/v1/services/road_network_service.py:12-18 | lanes are None exactly for None; an empty list gives ""; a scalar gives its `str` |
| RoadNetworkService.NormalizeLanesSplitsBack | app/api/v1/services/road_network_service.py:14-15 | the joined lanes split back into the items' strings, when there is at least one item and no item's string contains a comma |
| RoadNetworkService.NormalizeLanesOfCounts | app/api/v1/services/road_network_service.py:14-15 | a non-empty list of integer lane counts reads back count by count from the joined string |
| RoadNetworkService.NormalizeLanesExamples | app/api/v1/services/road_network_service.py:12-18 | `[1, 2, 3]` gives "1,2,3", `2` gives "2", `[]` gives "" and None gives None |
| RoadNetworkService.NormalizeWidth | app/api/v1/services/road_network_service.py:21-33 | None gives None; the only exception that escapes is OverflowError, and only from an integer too large for a float |
| RoadNetworkService.NormalizeWidthOfList | app/api/v1/services/road_network_service.py:23-27 | a width list converts all or nothing: it keeps length and order exactly when every element converts; without overflow, one bad element makes the result None |
| RoadNetworkService.NormalizeWidthOfScalar | app/api/v1/services/road_network_service.py:28-32 | a convertible scalar becomes a one-element list; a rejected one becomes None |
| RoadNetworkService.CreateRoadEdge | app/api/v1/services/road_network_service.py:36-57 | a built edge is current, has SRID 4326 and no timestamp yet, and is tied to the given network and user |
| RoadNetworkService.CreateRoadEdgeFailsExactly | app/api/v1/services/road_network_service.py:37-41 | building an edge fails exactly when the feature is not a dict, its geometry is rejected, its properties are present but not a dict, or its width overflows |
| RoadNetworkService.ExtraPropertiesKeepUnknownKeys | app/api/v1/services/road_network_service.py:42-53 | `extra_properties` holds exactly the properties outside the known set, each with its original value |
| RoadNetworkService.KnownPropertiesFillColumns | app/api/v1/services/road_network_service.py:40-52 | each known property fills its column: normalised for lanes and width, unchanged otherwise, NULL when absent; the geometry is the feature's |
| RoadNetworkService.FeatureWithoutProperties | app/api/v1/services/road_network_service.py:38 | any feature that is a dict with an accepted geometry and no "properties" member gives an edge with every attribute NULL and no extra properties |
| RoadNetworkService.NullPropertiesRaise | app/api/v1/services/road_network_service.py:38-41 | as written, a feature with an accepted geometry whose "properties" is JSON null raises AttributeError |
| RoadNetworkService.CreateRoadEdgeAsIntended | app/api/v1/services/road_network_service.py:36-57 | corrected edge builder: on any feature whose "properties" is not null it builds exactly what `create_road_edge` builds |
| RoadNetworkService.NullPropertiesReadAsEmpty | app/api/v1/services/road_network_service.py:38 | corrected, a feature with null properties and an accepted geometry becomes an edge on that geometry, current, in the given network and owned by the given user, with every attribute NULL and no extra properties |
| RoadNetworkService.NetworkName | app/api/v1/services/road_network_service.py:65 | the network name is always truthy: the file's name when that is truthy, else "Unnamed Network" |
| RoadNetworkService.NetworkTimestamp | app/api/v1/services/road_network_service.py:66 | the network is given the file's timestamp value when the key is present and not null, the current time when the key is absent, and no value (so the column default applies) when it is null |
| RoadNetworkService.Upload | app/api/v1/services/road_network_service.py:60-93 | every failure answers 400 and leaves the committed state unchanged; a success answers with the next network key and only appends rows |
| RoadNetworkService.UploadSucceedsExactly | app/api/v1/services/road_network_service.py:60-93 | an upload by an existing user succeeds exactly when the file is a JSON object, its features can be iterated, every feature becomes an edge and the database accepts the commit |
| RoadNetworkService.UploadedRows | app/api/v1/services/road_network_service.py:65-84 | a successful upload adds one network, named from the file and stamped with the file's timestamp, the current time, or the network column's import-time default for a null one; and one edge per feature, in order, each current, owned by the uploader, in the new network and stamped with the edge column's import-time default |
| RoadNetworkService.UploadTimeOnlyStampsTheNetwork | app/db/models.py:89-91 | the same upload made at another time gives the same reply and the same edges, all stamped with the edge column's import-time default |
| RoadNetworkService.UploadWithoutFeatures | app/api/v1/services/road_network_service.py:76 | a file without features uploads a network with no edges |
| RoadNetworkService.OneBadFeatureSinksTheBatch | app/api/v1/services/road_network_service.py:78-93 | one feature that cannot become an edge fails the upload and commits nothing, not even the network |
| RoadNetworkService.UploadRoadNetwork | app/api/v1/services/road_network_service.py:60-93 | on a session, the reply and the committed state are those of `Upload`, and no changes are left pending |
| UsersService.IndexById | app/api/v1/services/users_service.py:32 | the query finds a row exactly when some user has the key, and the row found has it |
| UsersService.IndexByEmail | app/api/v1/services/users_service.py:77 | the query finds a row exactly when some user has the email, and the row found has it |
| UsersService.QueriesFindTheRow | app/db/models.py:39-43 | with unique keys and emails, each query finds the one row that carries the key or email asked for |
| UsersService.GetUserById | app/api/v1/services/users_service.py:30-41 | a returned user is in the table and has the key asked for; every other outcome is 401, 404 or AttributeError |
| UsersService.GetUserByIdAccess | app/api/v1/services/users_service.py:30-41 | a record is returned exactly when it exists and the caller is ADMIN or that user; another user's record gives 401; a missing one gives 404 for an ADMIN and AttributeError for anyone else |
| UsersService.GetUserByEmail | app/api/v1/services/users_service.py:75-81 | the reply is a user or 404 "User not found"; it is a user exactly when some user has the email, and the user returned is a stored user with that email |
| UsersService.GetUserByEmailExact | app/api/v1/services/users_service.py:75-81 | on a valid table, the lookup succeeds exactly when some user has the email, and it returns that user |
| UsersService.CreateUser | app/api/v1/services/users_service.py:12-27 | a failure leaves the committed state unchanged; a success appends exactly the returned user, with the next key |
| UsersService.CreateUserOutcome | app/api/v1/services/users_service.py:12-27 | a request with a role succeeds exactly when neither the username nor the email is taken; the row then holds the request's fields and the hashed password, and a lookup by the email finds it; otherwise "Failed to create user" is raised |
| UsersService.CreateUserWithoutRoleRaises | app/api/v1/services/users_service.py:14-18 | a request without a `role` raises AttributeError and stores nothing |
| UsersService.CreateUserAsIntended | app/api/v1/services/users_service.py:12-27 | a failure leaves the committed state unchanged |
| UsersService.CreateUserAsIntendedDefaultsToUser | app/db/models.py:45-47 | with the column default applied, a request without a role and with a fresh username and email creates a USER |
| UsersService.DeleteUser | app/api/v1/services/users_service.py:51-71 | AttributeError exactly when no user has the key; a deletion that reaches the commit removes one user row and leaves networks and edges unchanged; every other reply leaves the state unchanged |
| UsersService.DeleteUserRefusesNonAdminTarget | app/api/v1/services/users_service.py:54-57 | as written, deleting any user who is not ADMIN is refused with 401, whoever asks |
| UsersService.DeleteUserMissingCrashes | app/api/v1/services/users_service.py:54-60 | as written, a missing key raises AttributeError, so the 404 reply can never be given |
| UsersService.DeleteUserCommitsExactly | app/api/v1/services/users_service.py:62-71 | deleting an existing ADMIN commits exactly when they own no network or edge; then exactly that row is removed, every other user is still present, and networks and edges are unchanged; otherwise the reply is 500 |
| UsersService.DeleteUserAsIntended | app/api/v1/services/users_service.py:51-71 | a caller who is not ADMIN is refused with 401 and nothing changes |
| UsersService.DeleteUserAsIntendedLetsAdminDelete | app/api/v1/services/users_service.py:51-71 | an ADMIN deletes a user of any role who owns nothing; exactly that row is removed, every other user, network and edge is kept, and reading the user back gives 404 |
| UsersService.DeleteUserAsIntendedMissingNotFound | app/api/v1/services/users_service.py:59-60 | an ADMIN deleting a missing key gets 404 and nothing changes |
| UsersService.CreateUserIn | app/api/v1/services/users_service.py:12-27 | on a session, the reply and the committed state are those of `CreateUser`, and a failed commit is rolled back |
| UsersService.DeleteUserIn | app/api/v1/services/users_service.py:51-71 | on a session, the reply and the pending state are those of `DeleteUser`; only a success is committed, and a failed commit is left in the session without a rollback |
| AlembicEnv.IncludeObject | alembic/env.py:26-84 | the filter answers exactly the rule: leave out tables named like an extension table (exact name or prefix), and anything in an extension schema |
| AlembicEnv.ExtensionNamesInitials | alembic/env.py:30-76 | every extension table name and prefix begins with one of a fixed set of letters |
| AlembicEnv.OtherInitialsIncluded | alembic/env.py:26-84 | a table whose name begins with another letter is managed exactly when it is not in an extension schema |
| AlembicEnv.AppTablesIncluded | alembic/env.py:26-84 | `users`, `road_networks` and `road_edges` are managed unless they sit in an extension schema |
| AlembicEnv.ExtensionTablesExcluded | alembic/env.py:57-78 | tables with any of the four prefixes `tiger_`, `tiger.`, `topology.` and `layer_`, and the table `edges`, are left out whatever their schema |
| AlembicEnv.NonTablesFilteredBySchemaOnly | alembic/env.py:28-82 | objects other than tables are left out exactly when they sit in an extension schema |

## Left out

- HTTP routing, FastAPI dependency injection, JWT authentication and the response schemas are not modelled. The services take the authenticated caller as a parameter.
- Reading the uploaded file and `json.loads` are not modelled. The upload takes the parsed document, or None when the file is not valid JSON.
- `shapely.geometry.shape`, `float` on integers and strings, and `str` of floats, lists and dicts are outside the model. They are opaque functions in `PyValues.Runtime`.
- IEEE floating point (rounding, `inf`, `nan`) is not modelled. A float is a real number.
- bcrypt hashing is not modelled. `hash_password` salts at random, so its output is a parameter (`hashed`).
- The clock is a parameter (`now`).
- Database failures outside the declared constraints (lost connection, disk full, a value the column type rejects) are folded into one `storeFails` flag per commit.
- Failing queries are not modelled, so the 500 replies of `get_user_by_id` and `get_user_by_email`, and the 500 reply of `delete_user` when its lookup fails, are left out. Only a failed commit is modelled.
- The detail strings that embed the exception text (`Upload failed: ...`, `Failed to create user, ...`) keep only their fixed part, or the exception.
- Store.Session.Rollback: restores the key counters along with the rows. In PostgreSQL, a rolled-back transaction still consumes sequence values, so later keys may skip numbers.
- Edge keys are not modelled, because no modelled operation reads them.
- Column type conversion is not modelled. A network name or timestamp taken verbatim from the file is stored as the JSON value; the database's own conversion is not modelled.
- AlembicEnv.IncludeObject: the `reflected` and `compare_to` arguments are not parameters, because the filter never reads them.
- The migration runners in `alembic/env.py`, other than `include_object`, are not modelled. They only configure and invoke the migration tool.
- PyValues.Lookup: takes the first member with a key. A dict from `json.loads` keeps the last of repeated keys, and the model does not reproduce that for JSON objects with duplicate keys.
- Python's limit on the number of digits `str(int)` will print is not modelled.

## Findings

| source | as written | input that shows it | evidently intended | confidence | as-written member | corrected member |
|---|---|---|---|---|---|---|
| app/api/v1/services/users_service.py:56-57 | the permission check reads the role of the user being deleted, not of the caller | an ADMIN deletes a USER, as tests/test_api.py:243-260 does: the reply is 401 | only an ADMIN caller may delete, and any user may be deleted | high, not executed | UsersService.DeleteUserRefusesNonAdminTarget | UsersService.DeleteUserAsIntendedLetsAdminDelete |
| app/api/v1/services/users_service.py:56-60 | `user.role` is read before `if not user`, so a missing user raises AttributeError | delete a key no user has: AttributeError (500), never 404 | a missing user answers 404 "User not found" | high, not executed | UsersService.DeleteUserMissingCrashes | UsersService.DeleteUserAsIntendedMissingNotFound |
| app/api/v1/services/users_service.py:18 | `request.role` is read, but the `CreateUser` schema (app/schemas.py:5-8) declares no `role` | any request built from the schema: AttributeError, and no user is created | a missing role falls back to the column default, USER | medium, not executed; the `app/schemas.py` shown may not be the revision the code runs with (it lacks `TokenData` and `NetworkUpdateResponse`, which other modules import), and tests/test_api.py:40-51 and 166-205 send a `role` and expect success | UsersService.CreateUserWithoutRoleRaises | UsersService.CreateUserAsIntendedDefaultsToUser |
| app/api/v1/services/road_network_service.py:38-41 | `feature.get("properties", {})` returns None for `"properties": null`, and `properties.get(...)` then raises AttributeError | a feature `{"type": "Feature", "geometry": <a point>, "properties": null}`: the upload answers 400 and stores nothing | a null `properties` member, which section 3.2 of RFC 7946 allows, is read as no properties | medium, not executed | RoadNetworkService.NullPropertiesRaise | RoadNetworkService.NullPropertiesReadAsEmpty |
