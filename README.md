# pysolarwinds, modelled in Dafny

pysolarwinds is a Python client for the SolarWinds Information Service
(SWIS), the query and CRUD interface of SolarWinds Orion. Under its HTTP
plumbing sits a thin layer of bookkeeping rules:

- local objects track changes against a cached copy of the server's
  properties, and send only what differs;
- node settings are inferred (polling method, SNMP version, discovery
  credentials, resources to delete after an import);
- in-memory lists of pollers, interfaces, volumes and settings are kept in
  step with the server;
- credential fields are validated, and server responses are normalised.

The repository carries three generations of these rules, and all three are
modelled:

- the first generation, under `solarwinds/` (`Endpoint`, its Orion node,
  the node model and the base list);
- the endpoint generation, `pysolarwinds/endpoints/` with
  `pysolarwinds/endpoint.py` (`Endpoint`, `NewEndpoint`, the interface, poller
  and credential endpoints);
- the entity generation, `pysolarwinds/entities/` (`Entity`, nodes,
  interfaces, pollers, volumes), with the models under `pysolarwinds/models/`.

The SWIS client is a scripted stub (module `Transport`). Every query, read,
create, update, delete, invoke and SQL statement is appended to a call log,
and what the server answers is fixed when the stub is built. Anything else
the source asks of the outside world becomes a parameter: the clock, the
answers of existence checks, and the user's exclusion patterns. Python's
dynamic values are one datatype, `PyValue.Value`, which carries Python's
truthiness, and a Python exception is an `Err` of `Wrappers.Error` naming
its class.

Where the source changes an object's fields, the model is a class with
those fields, and its methods state the whole new state and the calls sent.
Where the source only computes, the model is a function, and lemmas state
what its result means. The files follow the source:

| file | module | source |
|---|---|---|
| endpoint_diff.dfy | `EndpointDiff` | the diff and patch builders of `pysolarwinds/endpoints/__init__.py` |
| endpoint.dfy | `Endpoints` | the `Endpoint` lifecycle and `NewEndpoint`, in `pysolarwinds/endpoints/__init__.py` and `pysolarwinds/endpoint.py` |
| legacy_endpoint.dfy | `LegacyEndpoints` | `solarwinds/endpoint.py` |
| entity.dfy | `Entities` | `pysolarwinds/entities/__init__.py` |
| custom_properties.dfy | `CustomProperties` | `pysolarwinds/custom_properties.py` |
| node_config.dfy | `NodeConfig` | `pysolarwinds/endpoints/orion/node.py` |
| node_entity.dfy | `NodeEntity` | `pysolarwinds/entities/orion/nodes.py` |
| legacy_model_node.dfy | `LegacyModelNode` | `solarwinds/models/node.py` |
| model_node.dfy | `ModelNode` | `pysolarwinds/models/node.py` |
| legacy_node.dfy | `LegacyNode` | `solarwinds/endpoints/orion/node.py` |
| node_settings.dfy | `OrionNodeSettings` | `pysolarwinds/models/orion/node_settings.py` |
| interfaces.dfy | `Interfaces` | `pysolarwinds/entities/orion/interfaces.py` |
| orion_interfaces.dfy | `OrionInterfaces` | `pysolarwinds/endpoints/orion/interfaces.py` |
| legacy_interfaces.dfy | `LegacyInterfaces` | `pysolarwinds/endpoints/orion/interface.py` |
| pollers.dfy | `Pollers` | `pysolarwinds/entities/orion/pollers.py` |
| orion_pollers.dfy | `OrionPollers` | `pysolarwinds/endpoints/orion/pollers.py` |
| base_list.dfy | `BaseLists` | `pysolarwinds/list.py` and `solarwinds/list.py` |
| volumes.dfy | `Volumes` | `pysolarwinds/entities/orion/volumes.py` |
| credentials.dfy | `Credentials` | `pysolarwinds/endpoints/orion/credential.py`, `credentials/userpass.py`, `pysolarwinds/models/orion/credentials/__init__.py` |
| utils.dfy | `Utils` | `solarwinds/utils.py` and `pysolarwinds/utils.py` |
| wrappers.dfy, pyvalue.dfy, text.dfy, lists.dfy, transport.dfy | helpers | Python values, errors, ASCII text, sequences and the SWIS stub |

Some code is shared between files:

- Lines 1-560 of `pysolarwinds/endpoint.py` are identical to those of
  `pysolarwinds/endpoints/__init__.py`. One `Endpoints.Endpoint` models both,
  and its rows cite the second file. The generations differ only in
  `NewEndpoint.save`, and both versions are modelled.
- `OrionInterfaces` and `LegacyInterfaces` share the interface lookup of
  `Interfaces`: the position, then the exact name, then the abbreviation.
  The pattern and the exactly-one-match rule are the same in all three files
  (`pysolarwinds/endpoints/orion/interfaces.py:402-421` and
  `pysolarwinds/endpoints/orion/interface.py:94-113`).

In some places the source cannot do what it evidently means, for example a
lookup that answers its key or an update that never deletes. There the
model keeps both versions. One member follows the code as written, and a
lemma shows where it goes wrong. A corrected member, defined beside it,
has the intended property proved. Each method's doc comment says which of
the two it composes, and "## Findings" lists every pair.

## Model

| member | source | states |
|---|---|---|
| `BaseLists.FirstStop` | pysolarwinds/list.py:41-43 | the scan stops at the first item whose name is the text or cannot be read, every item before it having a readable other name |
| `BaseLists.GetText` | pysolarwinds/list.py:25-32 | `get` with a text answers the first item of that name, the error of the first unreadable name before it, or None |
| `BaseLists.GetItem` | pysolarwinds/list.py:30-32 | `get` with an object answers it exactly when it is listed, None otherwise |
| `BaseLists.GetOther` | pysolarwinds/list.py:25-32 | `get` with a position or any other key answers None |
| `BaseLists.AtPosition` | pysolarwinds/list.py:38-39 | an integer index succeeds exactly when it is within Python's range and answers the item there, counting negative positions from the end |
| `BaseLists.SubscriptIsGet` | pysolarwinds/list.py:40-45 | as intended, `[text]` answers the item `get` finds, KeyError where `get` finds nothing |
| `BaseLists.SubscriptAnswersKey` | pysolarwinds/list.py:41-43 | as written, a name that matches answers the text itself instead of the item; every other answer is the intended one |
| `BaseLists.Target` | pysolarwinds/entities/orion/pollers.py:169-173 | a passed object is acted on itself, a position or other key has no such method, and a text acts on the first listed item of that name |
| `BaseLists.TargetText` | pysolarwinds/entities/orion/pollers.py:171-172 | for a text, the intended target is what `get` finds, KeyError when it finds nothing |
| `BaseLists.TargetByNameFails` | pysolarwinds/list.py:41-43 | as written, acting on an item by its name always raises, AttributeError when the name is listed; other keys act as intended |
| `BaseLists.LegacyNeverFindsByName` | solarwinds/list.py:29-32 | reusing the loop variable makes a text key raise KeyError even for a listed name the corrected lookup finds |
| `BaseLists.LegacyAgreesElsewhere` | solarwinds/list.py:25-32 | for every key but a text the first generation answers as the corrected lookup does |
| `CustomProperties.KeptProps` | pysolarwinds/custom_properties.py:8-27 | a key of the record is kept, with its value, exactly when it is neither one of the five excluded names nor ends in "ID" |
| `CustomProperties.ChangedProps` | pysolarwinds/custom_properties.py:39-41 | a property counts as changed exactly when its attribute now holds another value |
| `CustomProperties.SavedProps` | pysolarwinds/custom_properties.py:39-43 | after `save` every property has its attribute's value and no key is added or lost |
| `CustomProperties.SavedSettles` | pysolarwinds/custom_properties.py:37-46 | a second `save` right after the first finds nothing changed |
| `CustomProperties.SavedIsUpdate` | pysolarwinds/custom_properties.py:42 | the saved properties are the old ones updated with just the changed entries |
| `CustomProperties.KeepProps` | pysolarwinds/custom_properties.py:22-27 | the loop of `__init__` keeps exactly `KeptProps` of the record |
| `CustomProperties.SaveLoop` | pysolarwinds/custom_properties.py:38-43 | the loop leaves `props` saved, `data` updated with the changed entries, and `changed` set exactly when some entry changed |
| `CustomProperties.CustomPropertyMap.Uri` | pysolarwinds/custom_properties.py:30-32 | the URI is the entity's current URI followed by "/CustomProperties" |
| `CustomProperties.CustomPropertyMap.constructor` | pysolarwinds/custom_properties.py:16-28 | construction reads that URI once, and the kept keys become both the properties and the attributes |
| `CustomProperties.CustomPropertyMap.Read` | pysolarwinds/custom_properties.py:34-35 | `read` replaces `data` with the record at the URI and sends only that read |
| `CustomProperties.CustomPropertyMap.Save` | pysolarwinds/custom_properties.py:37-46 | the changed properties take their attribute values in `props` and `data`; the whole of `props` is sent in one update exactly when something changed; afterwards nothing is left to send |
| `Entities.InitialIdentity` | pysolarwinds/entities/__init__.py:38-48 | the only failure is ValueError, and a non-empty record passed in is the record kept |
| `Entities.InitialIdentityFails` | pysolarwinds/entities/__init__.py:38-43 | construction raises exactly when no id, URI or record is given and the subclass lookup finds no record |
| `Entities.InitialIdentityPrecedence` | pysolarwinds/entities/__init__.py:44-48 | without a URI an id fills the template, a record's "Uri" wins over it, and a record the subclass finds supplies both URI and record |
| `Entities.SaveChanges` | pysolarwinds/entities/__init__.py:85-90 | the diff raises only KeyError, and once it succeeds every mapped property is in the record |
| `Entities.SaveChangesFails` | pysolarwinds/entities/__init__.py:88 | the diff raises exactly when some mapped property is missing from the record |
| `Entities.SaveChangesSound` | pysolarwinds/entities/__init__.py:86-90 | every property in the diff is mapped from an attribute that differs from the record, and carries that attribute's value |
| `Entities.SaveChangesComplete` | pysolarwinds/entities/__init__.py:86-90 | every mapped property whose attribute differs from the record is in the diff |
| `Entities.WrittenBackShape` | pysolarwinds/entities/__init__.py:93-95 | the write-back puts every mapped property in the record, leaves unmapped keys alone, and with distinct property names gives each its attribute's value |
| `Entities.SaveSettles` | pysolarwinds/entities/__init__.py:83-95 | with distinct property names, a diff taken right after a write-back is empty |
| `Entities.Entity.constructor` | pysolarwinds/entities/__init__.py:30-37 | the fields before identity resolution: the given id, `uri or ""`, `data or {}`, and the keyword arguments as attributes |
| `Entities.Entity.Resolve` | pysolarwinds/entities/__init__.py:38-52 | a ValueError changes nothing; otherwise the URI of `InitialIdentity`, its record or one read from that URI (one read call), and the given id or the one the record yields |
| `Entities.Entity.Read` | pysolarwinds/entities/__init__.py:57-59 | `read` caches the record at the URI and sends one read |
| `Entities.Entity.Delete` | pysolarwinds/entities/__init__.py:75-77 | `delete` sends one delete call for the URI |
| `Entities.Entity.Changes` | pysolarwinds/entities/__init__.py:85-90 | the loop computes exactly `SaveChanges` |
| `Entities.Entity.Save` | pysolarwinds/entities/__init__.py:83-98 | explicit updates, else the diff, are sent in one update when non-empty, after which every mapped property takes its attribute's value; a KeyError or an empty diff sends nothing and changes nothing |
| `Entities.ErrorSticks` | pysolarwinds/entities/__init__.py:86-88 | a KeyError on any mapped property fails the whole diff |
| `Entities.Construct` | pysolarwinds/entities/__init__.py:21-52 | `__init__` after the subclass lookup: ValueError exactly when `InitialIdentity` fails, else a fresh entity with its URI, its record or the one read, and its id |
| `Endpoints.UriQueries` | pysolarwinds/endpoints/__init__.py:118-125 | one single-condition query on the object's entity per truthy key attribute, never more queries than key attributes |
| `Endpoints.FirstHit` | pysolarwinds/endpoints/__init__.py:129-135 | the index of the first query the server answers with a row, all earlier ones answering none |
| `Endpoints.UriLookup` | pysolarwinds/endpoints/__init__.py:110-145 | a cached URI is kept unless `refresh`; no declared key attributes raise SWObjectPropertyError; a URI found is cached, and otherwise the URI stays or becomes empty |
| `Endpoints.LookupOnlyReads` | pysolarwinds/endpoints/__init__.py:118-136 | looking a URI up only ever sends queries |
| `Endpoints.CachedUriNeedsNoQuery` | pysolarwinds/endpoints/__init__.py:114-145 | a cached URI is returned without asking the server |
| `Endpoints.NoTruthyKeysNoQueries` | pysolarwinds/endpoints/__init__.py:118-125 | with every key attribute falsy no query is built |
| `Endpoints.NoKeysNoLookup` | pysolarwinds/endpoints/__init__.py:137-142 | with no truthy key attribute nothing is queried and the object counts as absent |
| `Endpoints.FirstAnsweredQueryWins` | pysolarwinds/endpoints/__init__.py:129-136 | the queries are sent in order up to the first answered one, whose first row's `uri` is the result |
| `Endpoints.ReplacedSwData` | pysolarwinds/endpoints/__init__.py:165-175 | when a read brings back something non-empty the whole cache is replaced, a part not read becoming None; otherwise the cache is kept |
| `Endpoints.PartialRefreshLosesCustomProperties` | pysolarwinds/endpoints/__init__.py:165-175 | a properties-only refresh forgets the cached custom properties, after which a changed local custom property is no longer detected |
| `Endpoints.NoneIfEmpty` | pysolarwinds/endpoints/__init__.py:384-388 | an empty diff is stored as None, a non-empty one as itself |
| `Endpoints.ReadsAfterLookup` | pysolarwinds/endpoints/__init__.py:161-173 | the cache refresh of `_get_swdata` only reads |
| `Endpoints.Endpoint.constructor` | pysolarwinds/endpoints/__init__.py:30-38 | a new endpoint has no URI, is not known to exist, has no patch and no pending changes, and an empty cache |
| `Endpoints.Endpoint.GetUri` | pysolarwinds/endpoints/__init__.py:110-145 | the answer, the cached URI and the calls sent are exactly those of `UriLookup` |
| `Endpoints.Endpoint.Exists` | pysolarwinds/endpoints/__init__.py:147-152 | whether the lookup yields a non-empty URI, cached in `_exists`, sending only queries; a cached URI answers True at once |
| `Endpoints.Endpoint.GetSwData` | pysolarwinds/endpoints/__init__.py:154-179 | an absent object raises SWObjectDoesNotExist; otherwise the requested parts are read when nothing is cached or `refresh` is set, as `CacheAfterRead` says; only reads are sent |
| `Endpoints.Endpoint.ReadParts` | pysolarwinds/endpoints/__init__.py:161-175 | the cache after reading is `CacheAfterRead` and the reads sent are `ReadsAfterLookup` |
| `Endpoints.Endpoint.UpdateAttrs` | pysolarwinds/endpoints/__init__.py:181-205 | the attributes become `UpdatedAttrs`; given custom-property updates replace `custom_properties`, None when empty |
| `Endpoints.Endpoint.GetId` | pysolarwinds/endpoints/__init__.py:455-466 | a truthy cached id is copied into `id` and the id attribute; a falsy one raises SWIDNotFound, and a cache without properties AttributeError |
| `Endpoints.Endpoint.BuildSwargs` | pysolarwinds/endpoints/__init__.py:344-367 | `_swargs` becomes the patch of mapped attributes with the extra swargs over them, and only when it holds a property or custom property |
| `Endpoints.BuiltTwice` | pysolarwinds/endpoints/__init__.py:344-367 | building the patch again from the same attributes gives the same `_swargs` |
| `Endpoints.Endpoint.Diff` | pysolarwinds/endpoints/__init__.py:427-453 | for an existing object the patch is compared with the cache, for a new one the whole patch is pending; `_changes` is set only when something is pending, and nothing is written |
| `Endpoints.Endpoint.DiffKnown` | pysolarwinds/endpoints/__init__.py:430-452 | with a cached URI the object counts as existing and its patch is compared with the cache, sending only reads |
| `Endpoints.Endpoint.DiffLookedUp` | pysolarwinds/endpoints/__init__.py:430-452 | without a cached URI the lookup decides: a found object is compared with its cache, an absent one gets the whole patch, and a failed lookup leaves `_changes` alone |
| `Endpoints.Endpoint.DiffFound` | pysolarwinds/endpoints/__init__.py:432-452 | once the object is found and the patch built, the cached comparison of `_diff` |
| `Endpoints.Endpoint.DiffCached` | pysolarwinds/endpoints/__init__.py:434-452 | the cached comparison, the cache being read first when it is missing |
| `Endpoints.Endpoint.Compare` | pysolarwinds/endpoints/__init__.py:434-452 | the changes of an existing object are those of the patch against the cache, stored only when something is pending |
| `Endpoints.Endpoint.DiffNew` | pysolarwinds/endpoints/__init__.py:439-452 | for an absent object the whole patch is pending, and a patch never built raises AttributeError |
| `Endpoints.Endpoint.SendPart` | pysolarwinds/endpoints/__init__.py:522-536 | one update sent, then the part it changed re-read |
| `Endpoints.Endpoint.PushChanges` | pysolarwinds/endpoints/__init__.py:521-547 | with nothing pending False and nothing sent; otherwise True, the updates of `ChangeWrites`, the cache `CacheAfterPush`, and `_changes` cleared |
| `Endpoints.Endpoint.Delete` | pysolarwinds/endpoints/__init__.py:497-508 | an existing object gets one delete call and forgets its URI and id, answering True; an absent one answers False and nothing is sent |
| `Endpoints.Endpoint.Refresh` | pysolarwinds/endpoints/__init__.py:90-102 | an object with a known URI answers `RefreshResult` of the cache it reads; on success it ends with a truthy id copied into `id`, the attributes `RefreshedAttrs`, and `custom_properties` set to the merged custom properties; an absent one is left alone; only reads are sent |
| `Endpoints.Endpoint.RefreshExisting` | pysolarwinds/endpoints/__init__.py:91-100 | the same for an object whose URI is known |
| `Endpoints.Endpoint.LoadId` | pysolarwinds/endpoints/__init__.py:92-93 | for a known URI the cache as read and the id copied into `id` and the id attribute, or the error of `_get_id`; only reads are sent |
| `Endpoints.Endpoint.RefreshLoaded` | pysolarwinds/endpoints/__init__.py:94-97 | custom properties cached on an object that keeps none raise AttributeError; otherwise the attributes get the mapped updates without overwriting, the id is kept, and `custom_properties` becomes the merged custom properties |
| `Endpoints.RefreshedAttrs` | pysolarwinds/endpoints/__init__.py:92-97 | the attributes after `refresh`: the old names plus id, id attribute and updated names; a truthy SolarWinds id ends in both `id` and the id attribute; every other truthy attribute is kept |
| `Endpoints.RefreshResult` | pysolarwinds/endpoints/__init__.py:92-97 | `refresh` succeeds exactly when the cache has properties with a truthy id, and custom properties only on an object that keeps them; its errors are AttributeError or SWIDNotFound |
| `Endpoints.CreateReadBack` | pysolarwinds/endpoints/__init__.py:489-494 | `create` answers True exactly when the read-back of the new object succeeds as `RefreshResult` says |
| `Endpoints.Endpoint.SendCreate` | pysolarwinds/endpoints/__init__.py:481-487 | the object is created and its URI kept, then its custom properties are written if any |
| `Endpoints.Endpoint.Create` | pysolarwinds/endpoints/__init__.py:468-495 | an existing object raises SWObjectExists and a failed lookup its error, sending nothing; otherwise `CreateOutcome`: no patch or a falsy required attribute raise; else the creation writes are sent and the answer is `CreateReadBack` of the new URI the server gives |
| `Endpoints.Endpoint.CreateNew` | pysolarwinds/endpoints/__init__.py:473-495 | `create` once the object is known to be absent meets `CreateOutcome` |
| `Endpoints.Endpoint.CreateWrite` | pysolarwinds/endpoints/__init__.py:481-495 | the writes of `create` are exactly `CreateWrites`, and for a non-empty new URI the answer is `CreateReadBack` |
| `Endpoints.Endpoint.ReadBack` | pysolarwinds/endpoints/__init__.py:489-494 | the read-back after the writes sends only reads and, for a known URI, answers `CreateReadBack` |
| `Endpoints.Endpoint.Save` | pysolarwinds/endpoints/__init__.py:514-550 | `SaveOutcome`: a failed lookup raises; an existing object sends its pending changes, or the diff's, answers False exactly when there were none, clears `_changes` and leaves the cache `CacheAfterSave`, each part sent re-read in turn over it; an absent one is created |
| `Endpoints.Endpoint.SaveBuilt` | pysolarwinds/endpoints/__init__.py:518-550 | `save` once the patch is built meets `SaveOutcome` |
| `Endpoints.Endpoint.SaveFound` | pysolarwinds/endpoints/__init__.py:518-547 | the existing-object branch of `save` meets `SaveOutcome` |
| `Endpoints.Endpoint.SaveNew` | pysolarwinds/endpoints/__init__.py:548-550 | the absent-object branch of `save` answers what `create` does |
| `Endpoints.Endpoint.SaveExisting` | pysolarwinds/endpoints/__init__.py:519-547 | pending changes are sent as they are; otherwise the diff is taken, a failing one raises, an empty one answers False and an empty `_changes`, a non-empty one is sent; the cache becomes `CacheAfterSave` |
| `Endpoints.SaveFoundMeets` | pysolarwinds/endpoints/__init__.py:518-547 | the existing-object outcome, after lookups that send nothing, is the outcome of `save` |
| `Endpoints.SaveCreated` | pysolarwinds/endpoints/__init__.py:548-550 | the creation outcome, after lookups that send nothing, is the outcome of `save` |
| `Endpoints.SavedEarlier` | pysolarwinds/endpoints/__init__.py:518-547 | lookups before the save send nothing, so the save's writes are all that is sent |
| `Endpoints.CreatedEarlier` | pysolarwinds/endpoints/__init__.py:470-495 | lookups before `create` send nothing, so its writes are all that is sent |
| `Endpoints.SaveFalseIffNothingPending` | pysolarwinds/endpoints/__init__.py:519-547 | `save` of an existing object answers False exactly when nothing was pending and the diff is empty, then writes nothing; answering True it has written at least one update |
| `Endpoints.SaveBothLosesProperties` | pysolarwinds/endpoints/__init__.py:527-536 | a `save` sending both parts re-reads the custom properties last and so drops the cached properties, after which the next diff of a patch with properties raises AttributeError |
| `Endpoints.MergedCacheAfterPush` | pysolarwinds/endpoints/__init__.py:522-536 | with a merging cache, each part sent is re-read and the part not sent is kept |
| `Endpoints.MergedPushKeepsProperties` | pysolarwinds/endpoints/__init__.py:522-536 | with the merge, cached properties survive any `save` and the next diff can compare |
| `Endpoints.ChangeWrites` | pysolarwinds/endpoints/__init__.py:522-536 | one update per non-empty part of the changes, all writes |
| `Endpoints.CreateWrites` | pysolarwinds/endpoints/__init__.py:481-486 | the creation call with the patch's properties first, then only writes |
| `Endpoints.FirstMissing` | pysolarwinds/endpoints/__init__.py:477-479 | the first required attribute that is falsy, all earlier ones truthy |
| `Endpoints.AskInTurn` | pysolarwinds/endpoints/__init__.py:129-136 | the queries are sent one by one up to and including the first answered one, and its index is `FirstHit` |
| `Endpoints.InitialUriFails` | pysolarwinds/endpoints/__init__.py:574-578 | construction raises ValueError exactly when no id, URI or data is given and the subclass lookup finds no URI |
| `Endpoints.InitialUriPrecedence` | pysolarwinds/endpoints/__init__.py:579-583 | without a URI, data's "Uri" wins over the template filled with the id |
| `Endpoints.InitialUriGiven` | pysolarwinds/endpoints/__init__.py:569-579 | a given URI is kept whatever else is passed |
| `Endpoints.WritePayloadShape` | pysolarwinds/endpoint.py:638-643 | the payload names exactly the mapped properties, each, with distinct names, carrying its attribute's current value |
| `Endpoints.StaleSaveAfterChange` | pysolarwinds/endpoints/__init__.py:615-620 | with the shared default dict, a second argument-less `save` after the caption changed from "a" to "b" sends "a" again |
| `Endpoints.SharedDefaultResends` | pysolarwinds/endpoints/__init__.py:615-620 | with the shared default dict, once an argument-less `save` sent a non-empty payload, every later one sends that same payload whatever the attributes hold |
| `Endpoints.NewEndpoint.constructor` | pysolarwinds/endpoints/__init__.py:567-573 | the given client, id, URI and data, and the keyword arguments as attributes |
| `Endpoints.NewEndpoint.Resolve` | pysolarwinds/endpoint.py:574-585 | ValueError exactly as `InitialUri` says, changing nothing; otherwise its URI, and the given data or the record read from that URI with one read |
| `Endpoints.NewEndpoint.ResolveWithId` | pysolarwinds/endpoints/__init__.py:574-587 | as `Resolve`, then a falsy id is replaced by the one the record yields |
| `Endpoints.NewEndpoint.Read` | pysolarwinds/endpoints/__init__.py:598-613 | `read` caches the record at the URI and sends one read |
| `Endpoints.NewEndpoint.Delete` | pysolarwinds/endpoints/__init__.py:607-609 | `delete` sends one delete call for the URI and changes nothing local |
| `Endpoints.NewEndpoint.Save` | pysolarwinds/endpoint.py:638-643 | `save` sends every mapped property, changed or not, in one update |
| `EndpointDiff.PropertyChangesExactly` | pysolarwinds/endpoints/__init__.py:378-382 | a key is in the property patch exactly when its local and cached values differ and are not both falsy; the value sent is truthy exactly when the local one is |
| `EndpointDiff.PropertyChangesSettle` | pysolarwinds/endpoints/__init__.py:373-388 | once the patch is written into the cache, diffing again finds nothing |
| `EndpointDiff.PropertyChangesNoneWhenEqual` | pysolarwinds/endpoints/__init__.py:373-388 | a cache that already holds every local value yields an empty patch |
| `EndpointDiff.DiffProperties` | pysolarwinds/endpoints/__init__.py:373-388 | the loop answers None exactly when the patch is empty, and otherwise the patch |
| `EndpointDiff.CustomPropertyChanges` | pysolarwinds/endpoints/__init__.py:393-401 | with both sides non-empty, exactly the local custom properties whose cached value differs, with the local value; nothing when either side is empty |
| `EndpointDiff.ClearingCustomPropertiesSendsNothing` | pysolarwinds/endpoints/__init__.py:395-396 | clearing every local custom property sends no custom-property change, whatever is cached |
| `EndpointDiff.CustomPropertyChangesSettle` | pysolarwinds/endpoints/__init__.py:390-409 | once written into the cache, the custom-property patch is empty |
| `EndpointDiff.DiffCustomProperties` | pysolarwinds/endpoints/__init__.py:390-409 | the loop answers None exactly when the custom-property patch is empty, and otherwise the patch |
| `EndpointDiff.RemoteCustomProps` | pysolarwinds/endpoints/__init__.py:226-238 | the cached custom properties minus the excluded keys, with their cached values, or nothing when none are cached |
| `EndpointDiff.CustomPropUpdates` | pysolarwinds/endpoints/__init__.py:207-224 | with both sides non-empty, the non-excluded cached keys plus the local keys, local values winning; otherwise nothing |
| `EndpointDiff.RefreshCustomPropsMerges` | pysolarwinds/endpoints/__init__.py:96 | after a refresh every cached, non-excluded custom property is present, with the local value where there is one and the cached value otherwise, and no other key but local ones |
| `EndpointDiff.UpdatedAttrs` | pysolarwinds/endpoints/__init__.py:193-196 | `_update_attrs` adds the keys of the updates to the attributes |
| `EndpointDiff.UpdatedAttrsKeepTruthy` | pysolarwinds/endpoints/__init__.py:195 | without `overwrite` a truthy attribute is never replaced |
| `EndpointDiff.UpdatedAttrsValue` | pysolarwinds/endpoints/__init__.py:194-196 | an updated key takes `new or None` when overwriting or when it was falsy, and keeps its truthy value otherwise |
| `EndpointDiff.UpdatedAttrsIdempotent` | pysolarwinds/endpoints/__init__.py:181-205 | applying the same updates twice is the same as applying them once |
| `EndpointDiff.ApplyUpdates` | pysolarwinds/endpoints/__init__.py:193-202 | the loop leaves exactly `UpdatedAttrs` of the attributes |
| `EndpointDiff.SwargsPropertiesKeys` | pysolarwinds/endpoints/__init__.py:348-351 | the patch holds exactly the SWIS names of the swargs attributes |
| `EndpointDiff.SwargsPropertiesValues` | pysolarwinds/endpoints/__init__.py:348-351 | where no two swargs attributes share a SWIS name, each name carries its attribute's value |
| `EndpointDiff.PatchProperties` | pysolarwinds/endpoints/__init__.py:344-358 | the extra swargs are written over the mapped attributes, and the patch has exactly the keys of both |
| `LegacyEndpoints.NoneIfEmpty` | solarwinds/endpoint.py:334-338 | an empty patch is reported as None, a non-empty one as itself |
| `LegacyEndpoints.KeyQueries` | solarwinds/endpoint.py:65-72 | one single-condition query per key attribute that is not None, never more queries than key attributes |
| `LegacyEndpoints.KeyQueriesShape` | solarwinds/endpoint.py:66-72 | each query names a key attribute without its underscores and carries that attribute's value |
| `LegacyEndpoints.FirstHit` | solarwinds/endpoint.py:76-82 | the index of the first query whose answer is accepted, all earlier answers refused |
| `LegacyEndpoints.UriLookup` | solarwinds/endpoint.py:57-92 | a cached URI other than None is kept unless `refresh`; no key attributes raise SWObjectPropertyError; a URI found is cached |
| `LegacyEndpoints.AmbiguousLookupFails` | solarwinds/endpoint.py:77-79 | several matching rows make `result["uri"]` index a list with a string, so the lookup raises TypeError instead of picking one |
| `LegacyEndpoints.LookupOnlyReads` | solarwinds/endpoint.py:57-92 | looking a URI up only ever sends queries |
| `LegacyEndpoints.AskInTurn` | solarwinds/endpoint.py:76-83 | the queries are sent one by one up to and including the first accepted one, whose index is `FirstHit` |
| `LegacyEndpoints.ReadSwData` | solarwinds/endpoint.py:105-120 | a read that brings something back replaces the cache whole, unread parts None; otherwise the cache is kept |
| `LegacyEndpoints.UpdatedAttrs` | solarwinds/endpoint.py:132-142 | the attributes afterwards are the old ones plus the updated names |
| `LegacyEndpoints.UpdatedAttrsKeepSet` | solarwinds/endpoint.py:134-142 | an attribute that is not None survives an update unless `overwrite` is given |
| `LegacyEndpoints.FalsyAttrIsKept` | solarwinds/endpoint.py:134-137 | a falsy value such as "" is not None and so is not filled in |
| `LegacyEndpoints.UpdatedAttrsPut` | solarwinds/endpoint.py:133-137 | one more update replaces its attribute exactly when that is None or `overwrite` is given |
| `LegacyEndpoints.ApplyUpdates` | solarwinds/endpoint.py:132-142 | the loop over the updates ends with `UpdatedAttrs` |
| `LegacyEndpoints.RemoteCustomProps` | solarwinds/endpoint.py:166-177 | the cached custom properties minus the excluded names, None when nothing is cached |
| `LegacyEndpoints.CustomPropUpdates` | solarwinds/endpoint.py:147-164 | the filtered cache with the local custom properties on top, or {} when either is None |
| `LegacyEndpoints.RefreshKeepsLocal` | solarwinds/endpoint.py:147-164 | in `refresh` a local custom property always wins over the cached one |
| `LegacyEndpoints.SwargsPropertiesKeys` | solarwinds/endpoint.py:287-293 | a patch key is the underscore-free name of an attribute that is not None, and every such attribute gives one |
| `LegacyEndpoints.SwargsPropertiesValues` | solarwinds/endpoint.py:287-293 | with distinct underscore-free names each such attribute's name carries its value |
| `LegacyEndpoints.FalsyNeverClears` | solarwinds/endpoint.py:330 | a falsy local value (None, "", 0) never produces a change |
| `LegacyEndpoints.ChangesAreCachedNames` | solarwinds/endpoint.py:327-332 | only lower-cased names of cached properties are patched, each with a truthy local value |
| `LegacyEndpoints.PropertyChangesSettle` | solarwinds/endpoint.py:327-338 | once the cache holds every truthy local value under its name, nothing is reported |
| `LegacyEndpoints.PropertyChangesStep` | solarwinds/endpoint.py:327-332 | one more cached key walked adds its change exactly when the local value is truthy and differs |
| `LegacyEndpoints.DiffProperties` | solarwinds/endpoint.py:324-338 | the loop of `_diff_properties` computes `PropertyChanges`, None when empty |
| `LegacyEndpoints.CustomPropertyChanges` | solarwinds/endpoint.py:340-357 | every local entry when nothing is cached, else exactly the entries that differ from the cache; nothing without a local map; each change carries the local value |
| `LegacyEndpoints.DiffCustomProperties` | solarwinds/endpoint.py:340-357 | `_diff_custom_properties` computes `CustomPropertyChanges`, None when empty |
| `LegacyEndpoints.PartialRefreshResendsCustomProperties` | solarwinds/endpoint.py:340-357 | after a properties-only re-read the custom properties are no longer cached, so the next diff resends every local custom property although none changed |
| `LegacyEndpoints.ChangeWrites` | solarwinds/endpoint.py:470-483 | one update per part of the changes that is not None, all writes |
| `LegacyEndpoints.FirstUnset` | solarwinds/endpoint.py:426-428 | the first required attribute that is None, all earlier ones set |
| `LegacyEndpoints.CreateWrites` | solarwinds/endpoint.py:430-437 | the creation with the patch's properties first, then only writes |
| `LegacyEndpoints.CachedDiffError` | solarwinds/endpoint.py:327-386 | `_diff` of an existing object fails exactly when the patch or the cached properties are None, or the patch has no properties while the cache is non-empty |
| `LegacyEndpoints.NextSwargs` | solarwinds/endpoint.py:283-312 | `_swargs` after `_build_swargs`: some patch, or the previous one kept |
| `LegacyEndpoints.NextSwargsTwice` | solarwinds/endpoint.py:283-312 | building the patch a second time changes nothing |
| `LegacyEndpoints.LookupAgain` | solarwinds/endpoint.py:57-92 | when the lookup finds no object, looking up again with the URI it cached finds none either |
| `LegacyEndpoints.CreatedAfterLookup` | solarwinds/endpoint.py:417-444 | lookups before `create` send nothing, so its writes are all that was sent |
| `LegacyEndpoints.UpdatedAfterLookup` | solarwinds/endpoint.py:462-495 | lookups before `update` of an existing object send nothing, so its updates are all that was sent |
| `LegacyEndpoints.LegacyEndpoint.constructor` | solarwinds/endpoint.py:20-27 | the class-level defaults: no URI, not known to exist, and no cache, patch or changes |
| `LegacyEndpoints.LegacyEndpoint.GetUri` | solarwinds/endpoint.py:57-92 | the answer, the cached URI and the calls sent are exactly those of `UriLookup` |
| `LegacyEndpoints.LegacyEndpoint.Exists` | solarwinds/endpoint.py:94-99 | whether the lookup yields a non-empty URI, cached in `_exists`; a cached URI answers at once; only queries are sent |
| `LegacyEndpoints.LegacyEndpoint.GetSwData` | solarwinds/endpoint.py:101-121 | with no existence check, reads the requested parts when nothing is cached or `refresh` is set, as `ReadSwData` says; a URI of None raises TypeError |
| `LegacyEndpoints.LegacyEndpoint.UpdateAttrs` | solarwinds/endpoint.py:123-145 | attributes become `UpdatedAttrs`; given custom-property updates replace `custom_properties`, None when empty |
| `LegacyEndpoints.LegacyEndpoint.GetId` | solarwinds/endpoint.py:403-415 | nothing without a cache; a cache without properties raises AttributeError; a present id is copied into `id` and the id attribute, a missing one raises SWIDNotFound |
| `LegacyEndpoints.LegacyEndpoint.BuildSwargs` | solarwinds/endpoint.py:283-312 | `_swargs` is replaced by the built patch when either part is non-empty, and kept otherwise |
| `LegacyEndpoints.LegacyEndpoint.Diff` | solarwinds/endpoint.py:375-401 | `_changes` is set to the changes found exactly when some part is not None, kept on error; for an object with a cached URI the patch is `NextSwargs`, the cache `CacheFor` and the result `DiffFound`; only reads are sent |
| `LegacyEndpoints.LegacyEndpoint.DiffCached` | solarwinds/endpoint.py:380-386 | the existing-object branch of `_diff`: the cache read as `CacheFor`, the patch `NextSwargs`, and the outcome of `DiffFound`, with the errors of indexing a part that is None |
| `LegacyEndpoints.LegacyEndpoint.ReadCache` | solarwinds/endpoint.py:380 | the cache becomes `CacheFor` of the URI, with only reads sent |
| `LegacyEndpoints.LegacyEndpoint.DiffAgainst` | solarwinds/endpoint.py:382-386 | against a given cache the outcome is `DiffFound`, and `_changes` is kept on error |
| `LegacyEndpoints.LegacyEndpoint.DiffNew` | solarwinds/endpoint.py:387-392 | the new-object branch: the patch itself, a patch never built raising TypeError |
| `LegacyEndpoints.LegacyEndpoint.SendPart` | solarwinds/endpoint.py:470-483 | one update call, then that part re-read as `ReadSwData` says, the re-read replacing the whole cache |
| `LegacyEndpoints.LegacyEndpoint.PushChanges` | solarwinds/endpoint.py:469-495 | with no changes False and nothing sent; otherwise True, `ChangeWrites` sent, the cache `CacheAfterPush` (each part sent re-read in turn, each re-read replacing the cache) and `_changes` cleared |
| `LegacyEndpoints.LegacyEndpoint.Delete` | solarwinds/endpoint.py:446-456 | a failed lookup raises; an absent object answers False and sends nothing; an existing one gets one delete call, forgets its URI and answers True |
| `LegacyEndpoints.LegacyEndpoint.Refresh` | solarwinds/endpoint.py:37-49 | a failed lookup raises with the attributes kept; an absent object is left alone; an existing one keeps the URI found, its cache becomes `CacheFor` of it and the attributes and `custom_properties` are `Refreshed` from that cache, or `RefreshError` is raised; only reads are sent |
| `LegacyEndpoints.LegacyEndpoint.RefreshExisting` | solarwinds/endpoint.py:39-44 | the cache becomes `CacheFor` of the URI; as `Refreshed` says, the id is copied into the attributes, the subclass updates applied, and `custom_properties` set from the merged or the cached custom properties, or the error of `RefreshError` raised |
| `LegacyEndpoints.RefreshError` | solarwinds/endpoint.py:39-44 | `refresh` of a read cache fails exactly when it has no properties (AttributeError), its id is missing (SWIDNotFound), or it holds custom properties the object does not have (AttributeError) |
| `LegacyEndpoints.LegacyEndpoint.SendCreate` | solarwinds/endpoint.py:430-437 | the object is created and its URI kept, then the custom properties written when not None |
| `LegacyEndpoints.LegacyEndpoint.Create` | solarwinds/endpoint.py:417-444 | `CreateOutcome` of the lookup: a failed lookup raises and an existing object answers False, both sending nothing; no patch or an unset required attribute raises SWObjectPropertyError and a patch without properties TypeError, sending nothing; otherwise exactly the `CreateWrites` are sent and any answer is True |
| `LegacyEndpoints.LegacyEndpoint.CreateMissing` | solarwinds/endpoint.py:420-444 | `create` once the lookup found nothing meets `CreateOutcome` and never answers False |
| `LegacyEndpoints.LegacyEndpoint.CreateNew` | solarwinds/endpoint.py:430-444 | the creation writes of `create` are sent, then the data and id are read back |
| `LegacyEndpoints.LegacyEndpoint.Update` | solarwinds/endpoint.py:462-498 | `UpdateOutcome` of the lookup: a failed lookup raises with nothing sent; an existing object keeps its URI and, as `UpdatedExisting` says, sends its pending changes or those `DiffFound` finds, answering False exactly when there are none, and clears `_changes`; a new object is created as `CreateOutcome` says; the cache after an existing object's update is `CacheAfterUpdate`, each part sent re-read into a cache of that part alone |
| `LegacyEndpoints.LegacyEndpoint.UpdateBuilt` | solarwinds/endpoint.py:463-498 | `update` once the patch is built meets `UpdateOutcome` |
| `LegacyEndpoints.LegacyEndpoint.UpdateNew` | solarwinds/endpoint.py:496-498 | the new-object branch of `update` meets `CreateOutcome` and `UpdateOutcome` |
| `LegacyEndpoints.LegacyEndpoint.UpdateFound` | solarwinds/endpoint.py:464-495 | the existing-object branch of `update` meets `UpdatedExisting`, keeps the URI and leaves the cache `CacheAfterUpdate` |
| `LegacyEndpoints.LegacyEndpoint.UpdateExisting` | solarwinds/endpoint.py:465-495 | the existing-object branch as `UpdatedExisting` says: pending changes sent as they are, otherwise those `DiffFound` finds against `CacheFor`, and `_changes` cleared; the cache becomes `CacheAfterUpdate` |
| `LegacyEndpoints.UpdateLosesProperties` | solarwinds/endpoint.py:101-119 | after an update that sends custom properties the cached properties are None, a later `update` leaves that cache as it is, and its `_diff` raises AttributeError |
| `LegacyEndpoints.MergedCacheAfterPush` | solarwinds/endpoint.py:469-495 | with a merging cache, each part sent is re-read and the part not sent is kept |
| `LegacyEndpoints.MergedUpdateKeepsProperties` | solarwinds/endpoint.py:469-495 | with the merge, cached properties survive any update and the next diff of a patch with properties can compare |
| `Credentials.FirstFailing` | pysolarwinds/endpoints/orion/credential.py:77-85 | the position of the first check of `_validate` that fails, every earlier one holding |
| `Credentials.Validate` | pysolarwinds/endpoints/orion/credential.py:77-210 | `_validate` returns exactly when all its checks hold, and otherwise raises with the reason of the first failing one |
| `Credentials.ValidateAccepts` | pysolarwinds/endpoints/orion/credential.py:77-210 | accepted exactly: a name, and a username with known methods (SNMPv3), a community (SNMPv2), or a username and a password (user/password); a missing name is always the reason given |
| `Credentials.UserPassOrder` | pysolarwinds/endpoints/orion/credential.py:204-210 | without a password the reason is the first of name, username, password that is missing |
| `Credentials.LowerUpper` | pysolarwinds/endpoints/orion/credential.py:97-100 | upper- then lower-casing a text without capitals gives it back |
| `Credentials.LowerUpperChar` | pysolarwinds/endpoints/orion/credential.py:97-100 | the same for one character |
| `Credentials.KnownMethodsLower` | pysolarwinds/endpoints/orion/credential.py:43-44 | the known methods are written without capitals |
| `Credentials.MethodRoundTrip` | pysolarwinds/endpoints/orion/credential.py:43-100 | every known method is read back from the argument `create` sends for it, so distinct methods give distinct arguments |
| `Credentials.UpdateArgsAreCreateArgs` | pysolarwinds/endpoints/orion/credential.py:91-238 | the update verb gets what the create verb gets, with the id in front and the owner left off the end |
| `Credentials.SnmpV3ArgsDetermine` | pysolarwinds/endpoints/orion/credential.py:91-104 | two valid SNMPv3 credentials sent with the same create arguments agree on everything but the description, the flags agreeing in truth |
| `Credentials.NotFoundKeepsUri` | pysolarwinds/endpoint.py:110-145 | a credential lookup that finds nothing leaves the URI empty |
| `Credentials.Credential.constructor` | pysolarwinds/endpoints/orion/credential.py:62-74 | the endpoint state and the kind's fields as given |
| `Credentials.Credential.Create` | pysolarwinds/endpoints/orion/credential.py:87-225 | a failed lookup raises its error; an existing credential raises SWObjectExists; an invalid one raises ValueError; otherwise one create verb with `CreateArgs` is invoked, its answer becomes the id, and True is answered |
| `Credentials.Credential.Save` | pysolarwinds/endpoints/orion/credential.py:107-239 | a new credential is created (the lookup being repeated); an existing one is validated and the update verb invoked, answering True, or None for user/password |
| `Credentials.ConstructAsWritten` | pysolarwinds/endpoints/orion/credential.py:20-202 | constructing any of the three kinds raises: ValueError without an id or a name, otherwise AttributeError because the client is kept in `api` while the base looks it up as `swis` |
| `Credentials.NewCredential` | pysolarwinds/endpoints/orion/credential.py:20-23 | with the client as `swis`: ValueError without an id or a name, nothing sent; otherwise the credential exists-check runs only queries and its error is raised |
| `Credentials.UserPassConstructAsWritten` | pysolarwinds/endpoints/orion/credentials/userpass.py:17-23 | constructing the user/password credential always raises TypeError, the base constructor being called without `swis` |
| `Credentials.NewUserPassCredential.constructor` | pysolarwinds/endpoints/orion/credentials/userpass.py:17-22 | the client and the given fields |
| `Credentials.NewUserPassCredential.CreateAsWritten` | pysolarwinds/endpoints/orion/credentials/userpass.py:33-36 | `create` raises ValueError when `_validate` refuses, else AttributeError on `self.endpoint`, before anything is sent |
| `Credentials.NewUserPassCredential.SaveAsWritten` | pysolarwinds/endpoints/orion/credentials/userpass.py:45-46 | `save` raises AttributeError, the base having no `exists` |
| `Credentials.NewUserPassCredential.Create` | pysolarwinds/endpoints/orion/credentials/userpass.py:33-43 | an invalid credential raises ValueError and sends nothing; otherwise one create verb, the answer as id, True |
| `Credentials.NewUserPassCredential.Save` | pysolarwinds/endpoints/orion/credentials/userpass.py:45-57 | an invalid credential raises ValueError; a new one is created; an existing one gets one update verb and None is answered |
| `Credentials.Choose` | pysolarwinds/models/orion/credentials/__init__.py:49-75 | ValueError exactly when neither id nor name is given; an id always gives an SNMPv3 credential; by name no row raises SWObjectNotFoundError, several SWNonUniqueResultError, and a credential is built from the single row |
| `Credentials.EndsWithLast` | pysolarwinds/models/orion/credentials/__init__.py:63-67 | a text ends with a suffix only if their last characters agree |
| `Credentials.SuffixesExclusive` | pysolarwinds/models/orion/credentials/__init__.py:63-67 | no type name ends with two of the three suffixes, so the order they are tested in does not matter |
| `Credentials.ChooseBySuffix` | pysolarwinds/models/orion/credentials/__init__.py:62-71 | each suffix picks its class, and a type with none of them raises SWError |
| `Credentials.CredentialsModel.constructor` | pysolarwinds/models/orion/credentials/__init__.py:25-26 | the given client |
| `Credentials.CredentialsModel.Get` | pysolarwinds/models/orion/credentials/__init__.py:31-75 | the name query is sent only for a lookup by name alone, and the answer is `Choose` of its rows |
| `Interfaces.IntOfText` | pysolarwinds/entities/orion/interfaces.py:31 | `int` of a stripped text succeeds exactly for an optional sign and a numeral (digits, single underscores between them), with the signed value of its digits; any other text is a ValueError |
| `Interfaces.PlainNumeral` | pysolarwinds/entities/orion/interfaces.py:31 | a numeral without underscores reads as its own digits |
| `Interfaces.NumeralDigitsAppend` | pysolarwinds/entities/orion/interfaces.py:31 | dropping underscores from two pieces one after the other drops them from each |
| `Interfaces.IntOfSignedText` | pysolarwinds/entities/orion/interfaces.py:31 | `int("+" + d)` is the value of the digits `d`, `int("-" + d)` its negation |
| `Interfaces.IntOfUnderscoredText` | pysolarwinds/entities/orion/interfaces.py:31 | `int(a + "_" + b)` for digit texts is the value of `a + b` |
| `Interfaces.UnderscoreDigits` | pysolarwinds/entities/orion/interfaces.py:31 | the digits of `a + "_" + b` are `a + b` |
| `Interfaces.IntOfDoubleUnderscore` | pysolarwinds/entities/orion/interfaces.py:31 | two underscores in a row are a ValueError |
| `Interfaces.IntOfSpaced` | pysolarwinds/entities/orion/interfaces.py:31 | `int(" 161 ")` is 161: whitespace around the digits is stripped |
| `Interfaces.IntOf` | pysolarwinds/entities/orion/interfaces.py:31 | `int` keeps an integer, reads a text as `int` of its stripped text, refuses None (and only None) with TypeError, and fails otherwise only with ValueError |
| `Interfaces.Unstripped` | pysolarwinds/entities/orion/interfaces.py:31 | stripping text that starts and ends with something other than whitespace keeps it |
| `Interfaces.DigitsUnstripped` | pysolarwinds/entities/orion/interfaces.py:31 | a text of digits is left alone by the strip of `int` |
| `Interfaces.IntTextRoundTrip` | pysolarwinds/entities/orion/interfaces.py:31 | `int(str(i)) == i` for every integer |
| `Interfaces.Iface.constructor` | pysolarwinds/entities/orion/interfaces.py:20-27 | the record, its URI and its name as given |
| `Interfaces.RecordName` | pysolarwinds/entities/orion/interfaces.py:279-280 | `data["Name"]` as the lookups use it: a KeyError without the key, a text otherwise usable |
| `Interfaces.RecordError` | pysolarwinds/entities/orion/interfaces.py:20-31 | a record builds an interface exactly when it is non-empty and its `InterfaceID` converts with `int`; an empty record is a ValueError and a missing id a KeyError |
| `Interfaces.Duplex` | pysolarwinds/entities/orion/interfaces.py:99-109 | `DuplexMode` indexes the four duplex names from either end; a missing mode is a KeyError, one out of range an IndexError, one not an integer a TypeError |
| `Interfaces.NewInterface` | pysolarwinds/entities/orion/interfaces.py:20-27 | a record that builds no interface gives its error; otherwise a new interface with the record, its "Uri" and its name |
| `Interfaces.BuildAll` | pysolarwinds/entities/orion/interfaces.py:487-489 | one new interface per record in order, or the first failing record's error |
| `Interfaces.Uris` | pysolarwinds/entities/orion/interfaces.py:507 | one URI per interface, in order |
| `Interfaces.WordRun` | pysolarwinds/entities/orion/interfaces.py:437-438 | the longest prefix of `[a-z\-]` characters |
| `Interfaces.NoSplitAt` | pysolarwinds/entities/orion/interfaces.py:437-438 | no split point but the end of that prefix can match the two groups |
| `Interfaces.NoOtherSplit` | pysolarwinds/entities/orion/interfaces.py:437-438 | when that prefix does not split the text, nothing else does |
| `Interfaces.AbbrParts` | pysolarwinds/entities/orion/interfaces.py:436-440 | the two groups of the abbreviation pattern, which concatenate to the lower-cased text with at most one final newline after them (Python's `$`), or None exactly when neither the text nor the text without its final newline splits |
| `Interfaces.Split` | pysolarwinds/entities/orion/interfaces.py:437-438 | the unique split of a text into a word run and a port run, or None exactly when no split point works |
| `Interfaces.Chomped` | pysolarwinds/entities/orion/interfaces.py:437-441 | the text `$` sees the end of: one final newline is dropped, anything else is kept |
| `Interfaces.NoSplitBeforeNewline` | pysolarwinds/entities/orion/interfaces.py:437-438 | a text ending in a newline matches neither group to its end |
| `Interfaces.NewlineParts` | pysolarwinds/entities/orion/interfaces.py:436-440 | "gi0/1" followed by a newline splits into "gi" and "0/1" |
| `Interfaces.ExpandsMeaning` | pysolarwinds/entities/orion/interfaces.py:441-444 | a name matches the full pattern exactly when, lower-cased, it is the two groups around one or more `[a-z\-]` characters, with at most one final newline |
| `Interfaces.SurroundsMeaning` | pysolarwinds/entities/orion/interfaces.py:441-444 | a text spans the pattern without `$`'s newline exactly when it is the two groups around one or more word characters |
| `Interfaces.NoFinalNewline` | pysolarwinds/entities/orion/interfaces.py:441-444 | the groups around a word run never end in a newline |
| `Interfaces.GigExpands` | pysolarwinds/entities/orion/interfaces.py:441-444 | "Gig0/1" matches the pattern built from "gi" and "0/1" |
| `Interfaces.Positions` | pysolarwinds/entities/orion/interfaces.py:443-445 | the positions listed all hold a match |
| `Interfaces.PositionsComplete` | pysolarwinds/entities/orion/interfaces.py:443-445 | every matching position is listed |
| `Interfaces.NoPositions` | pysolarwinds/entities/orion/interfaces.py:443-448 | no match gives no positions |
| `Interfaces.OnePosition` | pysolarwinds/entities/orion/interfaces.py:443-450 | exactly one match gives exactly its position |
| `Interfaces.SinglePosition` | pysolarwinds/entities/orion/interfaces.py:446-453 | there is one position exactly when one name matches |
| `Interfaces.Hits` | pysolarwinds/entities/orion/interfaces.py:443-445 | whether each name matches, name by name |
| `Interfaces.FindExpansions` | pysolarwinds/entities/orion/interfaces.py:442-445 | the loop collects exactly the matching positions, in order |
| `Interfaces.AbbrLookup` | pysolarwinds/entities/orion/interfaces.py:435-456 | `_get_iface_by_abbr` fails only with IndexError |
| `Interfaces.AbbrLookupMeaning` | pysolarwinds/entities/orion/interfaces.py:435-456 | an abbreviation finds an interface exactly when it has the abbreviation shape (a final newline allowed) and one name matches (a final newline allowed), and the interface found is the one with that name |
| `Interfaces.AbbrBeforeNewline` | pysolarwinds/entities/orion/interfaces.py:435-456 | the key "gi0/1" with a final newline finds the interface named "Gig0/1" |
| `Interfaces.FirstExact` | pysolarwinds/entities/orion/interfaces.py:637-639 | the first name equal to the key ignoring case, none equal before it |
| `Interfaces.FirstExactIs` | pysolarwinds/entities/orion/interfaces.py:637-639 | that first position is unique |
| `Interfaces.FindExact` | pysolarwinds/entities/orion/interfaces.py:637-639 | the scan finds `FirstExact` |
| `Interfaces.NameResults` | pysolarwinds/entities/orion/interfaces.py:637-639 | the name of each interface, read in order |
| `Interfaces.ListedName` | pysolarwinds/entities/orion/interfaces.py:279-280 | `x.name` is `data["Name"]`, a KeyError without it |
| `Interfaces.ListedNames` | pysolarwinds/entities/orion/interfaces.py:609 | one name result per listed interface |
| `Interfaces.Strs` | pysolarwinds/entities/orion/interfaces.py:610 | the requested names as the values they are compared with |
| `Interfaces.NamesOf` | pysolarwinds/entities/orion/interfaces.py:609 | all names when every one reads, otherwise the error of the first that does not |
| `Interfaces.CollectNames` | pysolarwinds/entities/orion/interfaces.py:609 | the loop gives `NamesOf` |
| `Interfaces.NamesOfPrefixErr` | pysolarwinds/entities/orion/interfaces.py:609 | a failing name ends the list comprehension with its error |
| `Interfaces.LookupPosition` | pysolarwinds/entities/orion/interfaces.py:633-634 | an int key is Python's `xs[i]`: a position from either end, else an IndexError |
| `Interfaces.LookupExact` | pysolarwinds/entities/orion/interfaces.py:635-639 | a name some interface carries up to case finds the first such one and never reaches the abbreviation |
| `Interfaces.LookupByAbbr` | pysolarwinds/entities/orion/interfaces.py:640-642 | only a name no interface carries is looked up as an abbreviation |
| `Interfaces.FindIn` | pysolarwinds/entities/orion/interfaces.py:632-642 | `__getitem__` over read names gives `LookupIn` |
| `Interfaces.Find` | pysolarwinds/entities/orion/interfaces.py:632-642 | `__getitem__` on a list of interfaces gives `Lookup` |
| `Interfaces.RemoveEach` | pysolarwinds/entities/orion/interfaces.py:508-509 | the loop of `delete` only removes interfaces from the list |
| `Interfaces.RemoveFirstDistinct` | pysolarwinds/entities/orion/interfaces.py:508-509 | on a list without repeats `remove(y)` removes exactly `y` |
| `Interfaces.RemoveEachDistinct` | pysolarwinds/entities/orion/interfaces.py:508-509 | on a list without repeats exactly the listed interfaces that were not given are left, still without repeats |
| `Interfaces.RemoveEachStep` | pysolarwinds/entities/orion/interfaces.py:508-509 | one more given interface is removed when still listed |
| `Interfaces.RemoveAll` | pysolarwinds/entities/orion/interfaces.py:508-509 | the loop gives `RemoveEach` |
| `Interfaces.FirstSeparator` | pysolarwinds/entities/orion/interfaces.py:413 | the first place matching the separator pattern, none before it |
| `Interfaces.CaptionName` | pysolarwinds/entities/orion/interfaces.py:413 | the caption's prefix up to its first separator, with no separator inside it |
| `Interfaces.DiscoveredOf` | pysolarwinds/entities/orion/interfaces.py:410-421 | a discovered interface is built exactly when the caption is text and every key is there; its name is `CaptionName` of the caption; a missing caption is a KeyError |
| `Interfaces.DiscoveredAll` | pysolarwinds/entities/orion/interfaces.py:559-561 | one discovered interface per record in order, or a failure |
| `Interfaces.DiscoveryOutcome` | pysolarwinds/entities/orion/interfaces.py:551-579 | code 0 with records succeeds, 0 without records and any code but 0 and 1 raise SWDiscoveryError, and 1 is let through without touching anything |
| `Interfaces.Up` | pysolarwinds/entities/orion/interfaces.py:606 | exactly the discovered interfaces whose status is 1 |
| `Interfaces.Requested` | pysolarwinds/entities/orion/interfaces.py:616 | exactly the discovered interfaces whose name was requested |
| `Interfaces.RecordsOf` | pysolarwinds/entities/orion/interfaces.py:479 | the record of each discovered interface, in order |
| `Interfaces.AddRows` | pysolarwinds/entities/orion/interfaces.py:479 | `x.data` of each item, a plain record raising AttributeError |
| `Interfaces.Missing` | pysolarwinds/entities/orion/interfaces.py:610 | exactly the requested names not present |
| `Interfaces.Extraneous` | pysolarwinds/entities/orion/interfaces.py:611 | exactly the listed interfaces whose name was not requested |
| `Interfaces.ExtraneousWithin` | pysolarwinds/entities/orion/interfaces.py:611 | they are taken from the list, no more often than it holds them |
| `Interfaces.MonitorNeverAdds` | pysolarwinds/entities/orion/interfaces.py:616-618 | as written, once any requested interface was discovered `monitor` fails with AttributeError before anything is added |
| `Interfaces.InterfaceList.constructor` | pysolarwinds/entities/orion/interfaces.py:428-433 | a node's empty list, nothing discovered, no response code |
| `Interfaces.InterfaceList.Add` | pysolarwinds/entities/orion/interfaces.py:458-482 | one add invoke with the records of the given interfaces; a plain record fails before it |
| `Interfaces.InterfaceList.Fetch` | pysolarwinds/entities/orion/interfaces.py:484-490 | one query; no rows keeps the list; otherwise the list becomes one new interface per row, or the first failing row's error leaves it as it was |
| `Interfaces.InterfaceList.Delete` | pysolarwinds/entities/orion/interfaces.py:492-510 | one bulk delete of the given interfaces, then the list is `RemoveEach` of them |
| `Interfaces.InterfaceList.DeleteAll` | pysolarwinds/entities/orion/interfaces.py:512-519 | a non-empty list is deleted in one call and emptied; an empty one sends nothing |
| `Interfaces.InterfaceList.Discover` | pysolarwinds/entities/orion/interfaces.py:521-579 | a node not polled by SNMP raises SWObjectPropertyError and sends nothing; otherwise one discovery call, the code stored, and the outcome of `DiscoveryOutcome`, a success replacing the discovered list |
| `Interfaces.InterfaceList.MonitorUp` | pysolarwinds/entities/orion/interfaces.py:604-607 | after a discovery the interfaces that are up are added and the list is fetched again, `Refetched` from the node's rows; a failure keeps the list |
| `Interfaces.InterfaceList.MonitorNamed` | pysolarwinds/entities/orion/interfaces.py:608-627 | the names are read first; missing names lead to a discovery and an add of the requested discovered interfaces; with `delete_extraneous` the interfaces not requested are deleted in one call; the list is kept |
| `Interfaces.InterfaceList.DeleteExtraneous` | pysolarwinds/entities/orion/interfaces.py:620-622 | one bulk delete when asked for and there are any |
| `Interfaces.InterfaceList.AddRequested` | pysolarwinds/entities/orion/interfaces.py:613-618 | discovery, then one add of the requested discovered interfaces when there are any |
| `Interfaces.InterfaceList.FetchIfEmpty` | pysolarwinds/entities/orion/interfaces.py:601-602 | an empty list is fetched with one list query and becomes `Refetched` from the rows; a non-empty list and the log are left alone |
| `Interfaces.InterfaceList.Monitor` | pysolarwinds/entities/orion/interfaces.py:581-627 | only ever appends calls; fetches first when nothing is listed; with no names discovers and adds the up interfaces, and a success leaves the list `Refetched` from the node's rows; with names, or on failure, the list is what the first fetch left |
| `Interfaces.InterfaceList.GetItem` | pysolarwinds/entities/orion/interfaces.py:632-642 | `__getitem__` gives `Lookup` of the listed interfaces |
| `OrionInterfaces.DiscoveryRows` | pysolarwinds/endpoints/orion/interfaces.py:487-515 | code 0 with records keeps the records, 0 without records and any code but 0 and 1 raise SWDiscoveryError, and 1 is let through without touching anything |
| `OrionInterfaces.SameCodes` | pysolarwinds/endpoints/orion/interfaces.py:487-515 | the endpoint and entity generations read the result codes the same way, and the entity generation's discovered interfaces are built from the same records |
| `OrionInterfaces.BeforeSpace` | pysolarwinds/endpoints/orion/interfaces.py:549 | the text before the first space holds no space, and what follows starts with one |
| `OrionInterfaces.CaptionWord` | pysolarwinds/endpoints/orion/interfaces.py:549 | `x["Caption"].split(" ")[0]`: a missing caption is a KeyError and one that is not text an AttributeError; otherwise the caption's prefix up to its first space |
| `OrionInterfaces.ToAdd` | pysolarwinds/endpoints/orion/interfaces.py:546-550 | exactly the records whose caption's first word was requested, or the error of the first caption that cannot be split |
| `OrionInterfaces.OneByOne` | pysolarwinds/endpoints/orion/interfaces.py:559-560 | one delete of its own URI per extraneous interface, in order |
| `OrionInterfaces.InterfaceList.constructor` | pysolarwinds/endpoints/orion/interfaces.py:395-400 | a node's empty list, nothing discovered, no response code |
| `OrionInterfaces.InterfaceList.Add` | pysolarwinds/endpoints/orion/interfaces.py:423-431 | one add invoke with the given records as they are |
| `OrionInterfaces.InterfaceList.Fetch` | pysolarwinds/endpoints/orion/interfaces.py:433-442 | one query; no rows keeps the list; otherwise one new interface per row, or the first failing row's error with the list kept |
| `OrionInterfaces.InterfaceList.Delete` | pysolarwinds/endpoints/orion/interfaces.py:444-454 | one bulk delete, then the list is `RemoveEach` of the given interfaces; True |
| `OrionInterfaces.InterfaceList.DeleteAll` | pysolarwinds/endpoints/orion/interfaces.py:456-461 | one bulk delete of every listed interface, even of none, and the list emptied; True |
| `OrionInterfaces.InterfaceList.DiscoverAsWritten` | pysolarwinds/endpoints/orion/interfaces.py:468-482 | as written, past the polling-method check `discover` always raises AttributeError before the discovery verb is invoked |
| `OrionInterfaces.InterfaceList.Discover` | pysolarwinds/endpoints/orion/interfaces.py:468-515 | as evidently meant: a node not polled by SNMP raises SWObjectPropertyError and sends nothing; otherwise one discovery call, the code stored, success keeping the records and answering True, code 1 answering None |
| `OrionInterfaces.InterfaceList.MonitorAll` | pysolarwinds/endpoints/orion/interfaces.py:533-535 | discovery, then every discovered record added, up or not |
| `OrionInterfaces.InterfaceList.AddRequested` | pysolarwinds/endpoints/orion/interfaces.py:545-552 | discovery, then one add of `ToAdd` when it is non-empty |
| `OrionInterfaces.InterfaceList.DeleteEach` | pysolarwinds/endpoints/orion/interfaces.py:554-560 | each extraneous interface deletes its own URI in turn |
| `OrionInterfaces.InterfaceList.MonitorNamed` | pysolarwinds/endpoints/orion/interfaces.py:536-566 | the names are read first; missing names lead to a discovery and an add of `ToAdd`; with `delete_extraneous` the interfaces not requested are deleted one by one; the list is kept |
| `OrionInterfaces.InterfaceList.FetchIfEmpty` | pysolarwinds/endpoints/orion/interfaces.py:530-531 | an empty list is fetched with one list query and becomes `Refetched` from the rows; a non-empty list and the log are left alone |
| `OrionInterfaces.InterfaceList.Monitor` | pysolarwinds/endpoints/orion/interfaces.py:517-566 | only appends calls; fetches first when nothing is listed, the list becoming `Refetched` from the rows, and otherwise keeps the list; with no names discovers and adds everything discovered |
| `OrionInterfaces.InterfaceList.MonitorFetched` | pysolarwinds/endpoints/orion/interfaces.py:533-566 | once fetched, everything discovered, or the requested names as `NamedWrites` says; the list is kept |
| `OrionInterfaces.InterfaceList.GetItem` | pysolarwinds/endpoints/orion/interfaces.py:571-581 | an int position, else the first exact name ignoring case, else the abbreviation |
| `LegacyInterfaces.Attrs` | pysolarwinds/endpoints/orion/interface.py:20-34 | every record key becomes an attribute holding its value, over the defaults None |
| `LegacyInterfaces.AttrOf` | pysolarwinds/endpoints/orion/interface.py:25-34 | a default attribute holds its record key's value, or None when the record lacks it |
| `LegacyInterfaces.MtuNeverAnswers` | pysolarwinds/endpoints/orion/interface.py:48-50 | as written, `mtu` calls itself and never answers, however deep the stack |
| `LegacyInterfaces.NameFromRecord` | pysolarwinds/endpoints/orion/interface.py:44-46 | `name` is the record's "name", stripped; a missing or non-text name has no `strip` |
| `LegacyInterfaces.EnabledFromRecord` | pysolarwinds/endpoints/orion/interface.py:60-62 | `enabled` holds exactly when the record's "admin_status" is 1 |
| `LegacyInterfaces.UpFromRecord` | pysolarwinds/endpoints/orion/interface.py:68-70 | `up` holds exactly when the record's "oper_status" is 1 |
| `LegacyInterfaces.NumbersFromRecord` | pysolarwinds/endpoints/orion/interface.py:36-78 | `id`, `speed` and the intended `mtu` are `int` of the record's "id", "speed" and "mtu" |
| `LegacyInterfaces.Interface.constructor` | pysolarwinds/endpoints/orion/interface.py:20-34 | the record, its "uri", and its "id" as `_id` |
| `LegacyInterfaces.Interface.SetId` | pysolarwinds/endpoints/orion/interface.py:40-42 | the `id` setter changes only `_id`, after which `id` is `int` of it |
| `LegacyInterfaces.Interface.Delete` | pysolarwinds/endpoint.py:497-508 | an interface without a URI raises SWObjectPropertyError (no query attributes) and sends nothing; otherwise its URI is deleted and its URI and id cleared, and the name is read for the log line |
| `LegacyInterfaces.Uris` | pysolarwinds/endpoints/orion/interface.py:159 | one URI per interface, in order |
| `LegacyInterfaces.NameResults` | pysolarwinds/endpoints/orion/interface.py:252 | the name of each interface, as read |
| `LegacyInterfaces.DeletesOf` | pysolarwinds/endpoints/orion/interface.py:274-275 | one delete per URI, in order |
| `LegacyInterfaces.DeletesOfStep` | pysolarwinds/endpoints/orion/interface.py:274-275 | one more URI adds one more delete |
| `LegacyInterfaces.DistinctApart` | pysolarwinds/endpoints/orion/interface.py:150 | two positions of a list without repeats hold different objects |
| `LegacyInterfaces.DistinctPairs` | pysolarwinds/endpoints/orion/interface.py:150 | a list without repeats holds pairwise different objects |
| `LegacyInterfaces.FreshDistinct` | pysolarwinds/endpoints/orion/interface.py:150 | adding an object the list lacks keeps it without repeats |
| `LegacyInterfaces.PairwiseDistinct` | pysolarwinds/endpoints/orion/interface.py:150 | pairwise different objects make a list without repeats |
| `LegacyInterfaces.BuildAll` | pysolarwinds/endpoints/orion/interface.py:150 | one new interface per record, without repeats, none failing |
| `LegacyInterfaces.DeleteSent` | pysolarwinds/endpoints/orion/interface.py:274-275 | a delete that went out follows whatever was sent before |
| `LegacyInterfaces.InterfaceList.constructor` | pysolarwinds/endpoints/orion/interface.py:87-92 | a node's empty list, nothing discovered, no response code |
| `LegacyInterfaces.InterfaceList.Add` | pysolarwinds/endpoints/orion/interface.py:115-123 | one add invoke with the given records |
| `LegacyInterfaces.InterfaceList.Fetch` | pysolarwinds/endpoints/orion/interface.py:125-153 | one query; no rows keeps the list, otherwise one new interface per row |
| `LegacyInterfaces.InterfaceList.Delete` | pysolarwinds/endpoints/orion/interface.py:155-165 | one bulk delete, then the list is `RemoveEach` of the given interfaces; True |
| `LegacyInterfaces.InterfaceList.DeleteAll` | pysolarwinds/endpoints/orion/interface.py:167-172 | one bulk delete of every listed interface, even of none, and the list emptied; True |
| `LegacyInterfaces.InterfaceList.DiscoverAsWritten` | pysolarwinds/endpoints/orion/interface.py:174-197 | as written: a node that does not exist raises SWObjectDoesNotExist, one not polled by SNMP SWObjectPropertyError, and any other AttributeError before the discovery verb |
| `LegacyInterfaces.InterfaceList.Discover` | pysolarwinds/endpoints/orion/interface.py:174-230 | as evidently meant: the two checks in that order, sending nothing; then one discovery call and the codes read as `DiscoveryRows` says |
| `LegacyInterfaces.InterfaceList.MonitorAll` | pysolarwinds/endpoints/orion/interface.py:248-250 | discovery, then every discovered record added |
| `LegacyInterfaces.InterfaceList.AddRequested` | pysolarwinds/endpoints/orion/interface.py:256-267 | discovery, then one add of the requested records when there are any |
| `LegacyInterfaces.InterfaceList.MonitorNames` | pysolarwinds/endpoints/orion/interface.py:251-281 | missing names lead to a discovery and an add; with `delete_extraneous` each interface not requested deletes itself; the list keeps its interfaces |
| `LegacyInterfaces.InterfaceList.AddMissing` | pysolarwinds/endpoints/orion/interface.py:256-267 | only when a requested name is missing, discovery and add |
| `LegacyInterfaces.InterfaceList.DeleteExtraneous` | pysolarwinds/endpoints/orion/interface.py:269-275 | with `delete_extraneous` every interface not requested ends without a URI, its deletes following what was sent before |
| `LegacyInterfaces.InterfaceList.DeleteEach` | pysolarwinds/endpoints/orion/interface.py:274-275 | each interface deletes itself in turn: all succeed exactly when each had a URI and a readable name, and then each one's delete was sent |
| `LegacyInterfaces.InterfaceList.DeleteAt` | pysolarwinds/endpoints/orion/interface.py:275 | one interface deletes itself and no other one changes |
| `LegacyInterfaces.InterfaceList.OthersDiffer` | pysolarwinds/endpoints/orion/interface.py:274 | in a list without repeats every other position holds another object |
| `LegacyInterfaces.InterfaceList.Monitor` | pysolarwinds/endpoints/orion/interface.py:232-281 | only appends calls; fetches first when nothing is listed, sending the list query first, and otherwise keeps the list; with no names the discovery and an add of everything discovered; with names, as `MonitoredNamed` says, the discovery and add for missing names and one delete per extraneous interface, by the URI it held or, for a fetched list, the one in its record |
| `LegacyInterfaces.InterfaceList.MonitorListed` | pysolarwinds/endpoints/orion/interface.py:248-281 | once listed, everything discovered, or the requested names as `MonitoredNamed` says with the URIs held before |
| `LegacyInterfaces.InterfaceList.MonitorEmpty` | pysolarwinds/endpoints/orion/interface.py:243-281 | on an empty list, the list query is sent first; with names, the extraneous interfaces of the fetched list are deleted by the URIs in their records |
| `LegacyInterfaces.InterfaceList.MonitorHeld` | pysolarwinds/endpoints/orion/interface.py:248-281 | on a list already held, the list is kept and the extraneous interfaces are deleted by the URIs they held before |
| `LegacyInterfaces.InterfaceList.MonitorFetched` | pysolarwinds/endpoints/orion/interface.py:248-281 | after the fetch step, which sent only reads, the calls of `monitor` are those of the listed list, deleting by the given URIs of the extraneous interfaces |
| `LegacyInterfaces.InterfaceList.FetchIfEmpty` | pysolarwinds/endpoints/orion/interface.py:243-244 | an empty list is fetched with one list query, its new interfaces holding the URIs of their records; a non-empty list and the log are left alone |
| `LegacyInterfaces.InterfaceList.MonitoredNamedSince` | pysolarwinds/endpoints/orion/interface.py:243-281 | reads sent before naming the interfaces do not change which writes `monitor` sent |
| `LegacyInterfaces.FetchedUris` | pysolarwinds/endpoints/orion/interface.py:148-150 | every interface fetched holds the "uri" of its record |
| `LegacyInterfaces.ListedDataUris` | pysolarwinds/endpoints/orion/interface.py:254-281 | for interfaces holding their records' URIs, the URIs of the extraneous ones are those of their records |
| `LegacyInterfaces.DataUris` | pysolarwinds/endpoints/orion/interface.py:24 | the "uri" of each interface's record, in order |
| `LegacyInterfaces.InterfaceList.GetItem` | pysolarwinds/endpoints/orion/interface.py:286-296 | an int position, else the first exact name, else the abbreviation, the names read first |
| `LegacyInterfaces.ExtraneousDistinct` | pysolarwinds/endpoints/orion/interface.py:254 | interfaces picked out of a list without repeats are without repeats and listed |
| `LegacyModelNode.LaterStepsKeep` | solarwinds/models/node.py:61-82 | the polling-method and SNMP steps leave every key but the subtype, version and community alone |
| `LegacyModelNode.InitError` | solarwinds/models/node.py:38-75 | a falsy argument without properties to fall back on raises KeyError, and properties without any IP SWObjectPropertyError |
| `LegacyModelNode.InitErrorNone` | solarwinds/models/node.py:38-75 | `__init__` raises nothing exactly when the arguments give an IP and the merged properties are accepted |
| `LegacyModelNode.InitPropertiesForced` | solarwinds/models/node.py:52-58 | the node's properties hold the polling IP and a truthy hostname as Caption whatever the properties say, and the defaults under them |
| `LegacyModelNode.InitPropertiesKeepsGiven` | solarwinds/models/node.py:53-54 | every other given property is passed on unchanged |
| `LegacyModelNode.InitMethodAgrees` | solarwinds/models/node.py:61-70 | a given subtype is kept and its lower case is the method; otherwise the method is "snmp" exactly when SNMPv2c settings are given, and the subtype becomes its upper case |
| `LegacyModelNode.SubtypeCases` | solarwinds/models/node.py:66-70 | the two subtypes written are the upper case of their methods |
| `LegacyModelNode.InitSnmpSettings` | solarwinds/models/node.py:78-82 | with SNMPv2c settings the version is 2, and the community, read-write first, is set only for an SNMP-polled node; without them neither is touched |
| `LegacyModelNode.InitPollersDefault` | solarwinds/models/node.py:73-75 | without a "pollers" property the pollers are the defaults of the method |
| `LegacyModelNode.DiffOf` | solarwinds/models/node.py:115-121 | exactly the local properties whose value in the record differs, with the local value; a local key the record lacks is a KeyError |
| `LegacyModelNode.DiffLoop` | solarwinds/models/node.py:116-121 | the loop of `diff` computes `DiffOf` |
| `LegacyModelNode.WhereClauses` | solarwinds/models/node.py:146-151 | exactly a Caption condition for a truthy hostname and an IPAddress condition for a truthy IP |
| `LegacyModelNode.UriLookup` | solarwinds/models/node.py:153-164 | no row raises SWObjectNotFoundError, several SWNonUniqueResultError, and the single row's "uri" is the answer |
| `LegacyModelNode.TrailingDigits` | solarwinds/models/node.py:169 | the run of digits that ends the URI |
| `LegacyModelNode.TrailingDigitsOf` | solarwinds/models/node.py:169 | after a prefix not ending in a digit, that run is exactly the digits that follow |
| `LegacyModelNode.ParseId` | solarwinds/models/node.py:168-170 | a URI that is not text is a TypeError, and a parsed id is a natural number |
| `LegacyModelNode.ParseIdRoundTrip` | solarwinds/models/node.py:169 | a URI made of a prefix not ending in a digit and a decimal id gives back that id |
| `LegacyModelNode.MergeStep` | solarwinds/models/node.py:52-58 | the defaults, non-empty properties over them, the IP and a truthy hostname |
| `LegacyModelNode.MethodStep` | solarwinds/models/node.py:61-70 | the polling method and subtype as `InitMethod` and `WithMethod` say |
| `LegacyModelNode.PollersStep` | solarwinds/models/node.py:73-75 | the pollers as `InitPollers` says |
| `LegacyModelNode.SnmpStep` | solarwinds/models/node.py:78-82 | the SNMP settings as `WithSnmp` says |
| `LegacyModelNode.Node.constructor` | solarwinds/models/node.py:36-82 | for accepted arguments: the IP and hostname, no URI or id, the finished properties, and the inferred method and pollers |
| `LegacyModelNode.NewNode` | solarwinds/models/node.py:36-82 | the exception `InitError` names, or a new node whose properties are `InitProperties` |
| `LegacyModelNode.Node.GetUri` | solarwinds/models/node.py:142-166 | the answer is `UriAnswer` and the calls `UriCalls`: the stored URI unless none is stored or `force`; neither hostname nor IP raises ValueError; otherwise one query, the lookup's error, or the URI stored and its id parsed; a falsy URI recurses without end |
| `LegacyModelNode.UriAnswer` | solarwinds/models/node.py:142-166 | a URI answered is truthy: the stored one when no lookup runs, else the one row found, whose id parses |
| `LegacyModelNode.UriCalls` | solarwinds/models/node.py:143-157 | one lookup query exactly when the node is looked up by hostname or IP, else none |
| `LegacyModelNode.Node.GetId` | solarwinds/models/node.py:168-170 | the id parsed from the URI, also stored |
| `LegacyModelNode.Node.Exists` | solarwinds/models/node.py:135-140 | False exactly when the forced lookup finds no row, True with the one row's truthy URI stored, and other errors propagate |
| `LegacyModelNode.Node.Diff` | solarwinds/models/node.py:107-121 | without given properties the node's own are used with the hostname written in as Caption; when `get_uri` fails (`UriAnswer`) its error with only `UriCalls` sent; otherwise those calls and one read of the URI, and the answer `DiffOf` of the record read |
| `LegacyNode.PollingMethod` | solarwinds/endpoints/orion/node.py:80-84 | "snmp" exactly when either community is not None, else "icmp" |
| `LegacyNode.SnmpVersion` | solarwinds/endpoints/orion/node.py:89-93 | 2 exactly when either community is not None, else 0 |
| `LegacyNode.MethodMatchesVersion` | solarwinds/endpoints/orion/node.py:80-93 | the inferred method and version agree: SNMP with 2, ICMP with 0 |
| `LegacyNode.InitSettings` | solarwinds/endpoints/orion/node.py:69-77 | neither IP nor caption is refused; a truthy method, version or pollers argument is kept as given |
| `LegacyNode.InferredSettings` | solarwinds/endpoints/orion/node.py:69-71 | without explicit settings a node with a community is polled over SNMP version 2 with the ten SNMP pollers, one without over ICMP version 0 with the two ICMP pollers |
| `LegacyNode.CapitalMethodNeedsPollers` | solarwinds/endpoints/orion/node.py:70-87 | a method given in capitals has no default pollers, so without explicit pollers the node is refused with KeyError |
| `LegacyNode.NodeExtraSwargs` | solarwinds/endpoints/orion/node.py:72-75 | status 1 and the polling method in capitals as the subtype |
| `LegacyNode.UnscoredShorter` | solarwinds/endpoint.py:291 | dropping underscores never lengthens a name |
| `LegacyNode.UnscoredHead` | solarwinds/endpoint.py:291 | a name starting with a letter keeps it in front |
| `LegacyNode.SwargsNamesShort` | solarwinds/endpoints/orion/node.py:20-27 | no patch attribute becomes "objectsubtype" |
| `LegacyNode.SwargsNamesNotStatus` | solarwinds/endpoints/orion/node.py:20-27 | no patch attribute becomes "status" |
| `LegacyNode.NameAvoidsStatus` | solarwinds/endpoint.py:291 | a name not starting with "st" does not become "status" |
| `LegacyNode.ExtraSwargsUnused` | solarwinds/endpoints/orion/node.py:72-75 | as written the extra swargs are stored where `_build_swargs` never looks, so a node's patch has no status and no subtype |
| `LegacyNode.PatchCarriesSettings` | solarwinds/endpoints/orion/node.py:72-75 | with the extra swargs in place the patch carries status 1 and the method in capitals |
| `LegacyNode.WindowAsWrittenFails` | solarwinds/endpoints/orion/node.py:139-145 | the window as written fails exactly for a start without an end, and agrees with the intended one otherwise |
| `LegacyNode.StartWithoutEnd` | solarwinds/endpoints/orion/node.py:139-145 | a start with no end raises UnboundLocalError as written; the intended window ends a day from now |
| `LegacyNode.ManagedFlag` | solarwinds/endpoints/orion/node.py:128-148 | `_swdata["properties"]["UnManaged"]`, failing on a missing part or key |
| `LegacyNode.PollerCreates` | solarwinds/endpoints/orion/node.py:107-115 | one create per poller type |
| `LegacyNode.PollerCreatesAt` | solarwinds/endpoints/orion/node.py:107-115 | the creates in the order of the poller types |
| `LegacyNode.PollerCreatesWrite` | solarwinds/endpoints/orion/node.py:115 | every poller create is a write |
| `LegacyNode.EnablesEveryPoller` | solarwinds/endpoints/orion/node.py:108-115 | each create is an enabled Orion.Pollers entry of its type bound to the node |
| `LegacyNode.PollerCreatesSent` | solarwinds/endpoints/orion/node.py:107-115 | the creates are exactly what is sent |
| `LegacyNode.ForgottenNodeId` | solarwinds/endpoints/orion/node.py:106 | a node id of 0 that `_get_id` confirms leaves the pollers bound to "N:None" as written, and to "N:0" as intended |
| `LegacyNode.OrionNode.constructor` | solarwinds/endpoints/orion/node.py:59-70 | the endpoint state and the pollers |
| `LegacyNode.OrionNode.Unmanage` | solarwinds/endpoints/orion/node.py:138-159 | True exactly for an existing node whose cached flag says managed, after one Unmanage invoke over the intended window; otherwise nothing written; errors come from the lookup or the flag |
| `LegacyNode.OrionNode.Remanage` | solarwinds/endpoints/orion/node.py:125-136 | None exactly for a node that does not exist; True exactly when the cached flag is True, after one Remanage invoke; otherwise nothing written |
| `LegacyNode.OrionNode.EnablePollers` | solarwinds/endpoints/orion/node.py:105-117 | one enabled poller created per poller type, bound to the node id that `_get_id` fills in when it is not set; True |
| `LegacyNode.OrionNode.Create` | solarwinds/endpoints/orion/node.py:119-123 | the base creation, then the pollers enabled when it created the node |
| `LegacyNode.NewOrionNode` | solarwinds/endpoints/orion/node.py:43-78 | the error of `InitSettings`, sending nothing; otherwise the settings and attributes stored, custom properties defaulting to {}, and the base `__init__` run, which sends only reads |
| `LegacyNode.Initialize` | solarwinds/endpoint.py:29-35 | a refresh when the node exists, defaults otherwise; only reads sent |
| `ModelNode.UriQuery` | pysolarwinds/models/node.py:7-13 | the lookup selects Orion.Nodes rows whose Caption is the hostname and whose IPAddress is the IP, each condition present exactly when that argument is truthy |
| `ModelNode.UriResult` | pysolarwinds/models/node.py:14-26 | a URI exactly when one row matches and carries one, that row's URI; no row and several rows are a ValueError, a row without a URI a KeyError |
| `ModelNode.GetUri` | pysolarwinds/models/node.py:4-26 | without hostname and IP a ValueError and no query; otherwise exactly one lookup query sent and the single URI it finds answered |
| `ModelNode.ExistsAnswerAsWritten` | pysolarwinds/models/node.py:52-56 | as written `exists` succeeds exactly when the lookup does and passes its error on, so a missing node raises |
| `ModelNode.ExistsAnswer` | pysolarwinds/models/node.py:52-56 | as intended no matching row answers False; any other answer is the as-written one |
| `ModelNode.MissingNodeRaises` | pysolarwinds/models/node.py:15-17 | for an empty lookup the as-written answer is a ValueError and the intended one is False |
| `ModelNode.ExistsAnswerMeaning` | pysolarwinds/models/node.py:52-56 | the intended answer is True exactly when one row with a truthy URI matches, False exactly when none matches or its URI is falsy; several rows are a ValueError and a row without URI a KeyError |
| `ModelNode.Exists` | pysolarwinds/models/node.py:52-56 | one lookup query sent (none without hostname and IP) and its rows answered as intended |
| `ModelNode.Target` | pysolarwinds/models/node.py:47-49 | a given URI is used as is; without one the lookup's URI or its error |
| `ModelNode.LookupCalls` | pysolarwinds/models/node.py:59-60 | at most one call is sent to find the URI, and it is a query |
| `ModelNode.ResolveUri` | pysolarwinds/models/node.py:64-65 | the URI resolved is the target, and only the lookup calls are logged |
| `ModelNode.ResultsOf` | pysolarwinds/models/node.py:61 | the record's "results" entry when it has one, else a KeyError |
| `ModelNode.Read` | pysolarwinds/models/node.py:58-61 | the target's record read once after the lookup and its "results" answered; a lookup error is passed on; nothing is written |
| `ModelNode.Delete` | pysolarwinds/models/node.py:47-50 | exactly the target's URI is deleted and nothing else written; with a given URI the delete is the only call |
| `ModelNode.UpdateProps` | pysolarwinds/models/node.py:66-70 | a truthy hostname is sent as Caption and a truthy IP as IPAddress; every other given property is sent unchanged and no other key is added |
| `ModelNode.UpdateCalls` | pysolarwinds/models/node.py:66-73 | one write for non-empty properties and one for non-empty custom properties, and no reads |
| `ModelNode.UpdateNeverWrites` | pysolarwinds/models/node.py:71-73 | as written any update with something to write raises NameError; as intended it writes something |
| `ModelNode.WritesOnly` | pysolarwinds/models/node.py:71-73 | writes appended to the log are exactly the writes sent |
| `ModelNode.UpdateNode` | pysolarwinds/models/node.py:63-73 | a lookup error is passed on and nothing written; otherwise exactly the intended writes to the target are sent |
| `ModelNode.CreateError` | pysolarwinds/models/node.py:28-32 | without a properties map the `.get` or the merge fails (AttributeError exactly when an IP or hostname argument is falsy, else TypeError); with one, a ValueError exactly when the IP is None in both places |
| `ModelNode.MisspeltIpKey` | pysolarwinds/models/node.py:40 | as written a truthy IP argument lands under "IPAddres" and the payload's "IPAddress" is whatever the properties had; the intended payload carries the IP under "IPAddress" |
| `ModelNode.CreatePropsMeaning` | pysolarwinds/models/node.py:29-42 | the intended payload has the polling IP, a truthy hostname as Caption, each default unless overridden, every other given property unchanged, and no other key |
| `ModelNode.CreateCallAsWritten` | pysolarwinds/models/node.py:39-45 | one create on Orion.Nodes with the as-written payload, with non-empty custom properties nested under CustomProperties in place of any payload value there |
| `ModelNode.Create` | pysolarwinds/models/node.py:28-45 | a create error is raised before any call; otherwise exactly the as-written create call is sent and the created URI answered |
| `ModelNode.Payload` | pysolarwinds/models/node.py:33-42 | the payload built step by step is `CreatePropsAsWritten`: the defaults, overwritten by the properties, the IP under "IPAddres", and a truthy hostname as Caption |
| `NodeConfig.IdentityCheck` | pysolarwinds/endpoints/orion/node.py:118-119 | a SWObjectPropertyError exactly when both the IP address and the caption are None |
| `NodeConfig.Defaults` | pysolarwinds/endpoints/orion/node.py:176-186 | SNMP exactly when the version is non-zero; version 2 exactly with a community, 3 exactly with only an SNMPv3 credential, ICMP with 0 exactly with neither |
| `NodeConfig.PollingMethod` | pysolarwinds/endpoints/orion/node.py:257-272 | a given method wins; otherwise "snmp" exactly when a cached or set community exists or the version is not 0, else "icmp" |
| `NodeConfig.SnmpVersion` | pysolarwinds/endpoints/orion/node.py:274-282 | a non-zero version wins; otherwise the version the defaults would pick |
| `NodeConfig.InferenceAgreesWithDefaults` | pysolarwinds/endpoints/orion/node.py:176-186 | on a new node the inferred method and version agree with the defaults |
| `NodeConfig.IsUnmanaged` | pysolarwinds/endpoints/orion/node.py:172-174 | None exactly for a non-integer status; True exactly for status 9 |
| `NodeConfig.IsManaged` | pysolarwinds/endpoints/orion/node.py:163-165 | None exactly for a non-integer status; False exactly for status 9 |
| `NodeConfig.ManagedIsNegation` | pysolarwinds/endpoints/orion/node.py:163-174 | the two status answers are None together and otherwise each other's negation |
| `NodeConfig.ExtraSwargs` | pysolarwinds/endpoints/orion/node.py:250-255 | exactly Status and ObjectSubType: the cached status, or 1 when it is falsy, and the upper-cased inferred method |
| `NodeConfig.NodePropertiesKeys` | pysolarwinds/endpoints/orion/node.py:205-219 | the patch has exactly the seven node columns and Status |
| `NodeConfig.NodePropertiesValues` | pysolarwinds/endpoints/orion/node.py:205-213 | caption, IP address and engine id go under their SWIS names, with the inferred SNMP version |
| `NodeConfig.PatchCarriesInferredMethod` | pysolarwinds/endpoints/orion/node.py:210-219 | ObjectSubType is always the upper-cased inferred method (the extra arguments overwrite the raw attribute), the status is truthy, and the communities are sent as given |
| `NodeConfig.NodeSwargs` | pysolarwinds/endpoints/orion/node.py:203-229 | the guard `properties or custom_properties` always passes, because the built properties hold the node columns: `_swargs` is always replaced, with `NodeProperties` and the `custom_properties` attribute, or `{}` when the node has none |
| `NodeConfig.DiscoveryGuard` | pysolarwinds/endpoints/orion/node.py:350-363 | discovery goes ahead exactly for SNMP with an IP address and at least one community or SNMPv3 credential; other protocols are NotImplementedError, the rest SWObjectPropertyError |
| `NodeConfig.V2Id` | pysolarwinds/endpoints/orion/node.py:371-380 | at most one id, present exactly when the community is given and names an existing credential |
| `NodeConfig.Numbered` | pysolarwinds/endpoints/orion/node.py:368-396 | one entry per candidate id, in order, with Order numbered from 1 |
| `NodeConfig.OfferInTurn` | pysolarwinds/endpoints/orion/node.py:370-396 | the appends for one version are the read-write then the read-only candidate, numbered in turn |
| `NodeConfig.DiscoveryCredentials` | pysolarwinds/endpoints/orion/node.py:368-398 | a ValueError exactly when no candidate credential exists; otherwise the candidates numbered from 1 |
| `NodeConfig.ReadWriteFirst` | pysolarwinds/endpoints/orion/node.py:370-396 | with both credentials available the read-write one has Order 1 and the read-only one Order 2 |
| `NodeConfig.OtherVersionOffersNothing` | pysolarwinds/endpoints/orion/node.py:370-398 | a version other than 2 or 3 offers no credential |
| `NodeConfig.TypesIn` | pysolarwinds/endpoints/orion/node.py:432-435 | a category's list holds no more entries than were requested |
| `NodeConfig.AddTypes` | pysolarwinds/endpoints/orion/node.py:432-435 | a KeyError exactly when some requested type is unknown; otherwise the context built from the types |
| `NodeConfig.BuildPluginContext` | pysolarwinds/endpoints/orion/node.py:419-435 | None imports nothing, exactly ["up"] uses the defaults, and otherwise every type is capitalised into its category's list or a KeyError |
| `NodeConfig.TypesPartition` | pysolarwinds/endpoints/orion/node.py:409-435 | with every type known the three lists together hold exactly as many entries as were requested |
| `NodeConfig.TypesInSound` | pysolarwinds/endpoints/orion/node.py:432-435 | every entry of a category's list is a capitalised requested type of that category |
| `NodeConfig.ImportGuard` | pysolarwinds/endpoints/orion/node.py:1083-1105 | a ValueError exactly when up interfaces are to be monitored with the node unmanaged (now or already), or the node is to be unmanaged now with a timeout that is neither seconds nor a duration |
| `NodeConfig.SelectedMembers` | pysolarwinds/endpoints/orion/node.py:1155-1172 | the selection holds exactly the unwanted resources |
| `NodeConfig.HitsMembers` | pysolarwinds/endpoints/orion/node.py:1182-1189 | the entries for one resource are that resource, present exactly when some pattern matches its name |
| `NodeConfig.PatternHitsMembers` | pysolarwinds/endpoints/orion/node.py:1182-1189 | the exclusion loop appends exactly the resources some pattern matches |
| `NodeConfig.MatchPatterns` | pysolarwinds/endpoints/orion/node.py:1182-1189 | the loop's hits are the pattern hits of every resource in order |
| `NodeConfig.InterfacesToDelete` | pysolarwinds/endpoints/orion/node.py:1155-1196 | a ValueError exactly for an unknown monitor value; otherwise the set of interfaces that are unwanted or match a pattern |
| `NodeConfig.VolumesToDelete` | pysolarwinds/endpoints/orion/node.py:1200-1235 | a ValueError exactly for "up" or an unknown value; otherwise the selection followed by the pattern hits, duplicates kept |
| `NodeConfig.SelectedExtremes` | pysolarwinds/endpoints/orion/node.py:1161-1164 | "all" selects nothing and None selects every resource; no pattern hits nothing |
| `NodeConfig.VolumeListedTwice` | pysolarwinds/endpoints/orion/node.py:1207-1230 | a volume both deselected and matched by a pattern is listed twice |
| `NodeConfig.Node.constructor` | pysolarwinds/endpoints/orion/node.py:88-101 | the attributes are stored as given, with an empty cache |
| `NodeConfig.Node.SetDefaults` | pysolarwinds/endpoints/orion/node.py:176-186 | with a method given nothing changes; otherwise method and version are set to the defaults, and inference afterwards yields exactly them |
| `NodeEntity.UniqueRow` | pysolarwinds/entities/orion/nodes.py:179-186 | a row exactly when one row matched; none is SWObjectNotFound, several SWNonUniqueResultError |
| `NodeEntity.LookupQueries` | pysolarwinds/entities/orion/nodes.py:175-199 | at most one query: by Caption when the caption is truthy, else by IPAddress when that is truthy, else none |
| `NodeEntity.NodeLookup` | pysolarwinds/entities/orion/nodes.py:175-199 | nothing to look up by answers None; otherwise the single matching row, or SWObjectNotFound / SWNonUniqueResultError |
| `NodeEntity.CaptionWins` | pysolarwinds/entities/orion/nodes.py:177-186 | with a caption set the IP address never changes the lookup |
| `NodeEntity.GetData` | pysolarwinds/entities/orion/nodes.py:175-199 | the lookup's outcome, with exactly its query logged |
| `NodeEntity.NodeAttrs` | pysolarwinds/entities/orion/nodes.py:154-163 | a KeyError without EngineID, an AttributeError for a subtype that is not a string, and otherwise exactly the six node attributes |
| `NodeEntity.NodeAttrsDefaults` | pysolarwinds/entities/orion/nodes.py:154-163 | the polling method is the lower-cased subtype, "icmp" without one; version 0 and communities "" by default; caption and address fall back to the arguments only when the record's are falsy |
| `NodeEntity.SavePayload` | pysolarwinds/entities/orion/nodes.py:653-661 | exactly the six writable columns with the polling method upper-cased; an AttributeError when the method is not a string |
| `NodeEntity.SavePayloadFollowsWriteMap` | pysolarwinds/entities/orion/nodes.py:28-35 | every other payload entry is the attribute the write map names for it |
| `NodeEntity.ReprOf` | pysolarwinds/entities/orion/nodes.py:665-671 | the caption when truthy, else the IP address when truthy, else the id |
| `NodeEntity.ReprNamesCaption` | pysolarwinds/entities/orion/nodes.py:665-667 | two nodes with non-empty captions share a repr only when the captions are equal |
| `NodeEntity.AgentPort` | pysolarwinds/entities/orion/nodes.py:201-204 | None for a falsy AgentPort, the integer for a truthy integer, `int` of the stripped text for a text (sign and underscores as `int` reads them), a ValueError only for a text `int` refuses |
| `NodeEntity.IsCmts` | pysolarwinds/entities/orion/nodes.py:333-336 | a KeyError exactly without CMTS; otherwise True exactly when it is "Y" |
| `NodeEntity.AlertsAreSuppressed` | pysolarwinds/entities/orion/nodes.py:454-457 | an error exactly without SuppressionMode; otherwise True exactly for mode 1 |
| `NodeEntity.AlertsWillBeSuppressed` | pysolarwinds/entities/orion/nodes.py:459-462 | an error exactly without SuppressionMode; otherwise True exactly for mode 3 |
| `NodeEntity.SuppressionExclusive` | pysolarwinds/entities/orion/nodes.py:454-462 | alerts are never both suppressed and scheduled for suppression |
| `NodeEntity.SuppressionConfirmed` | pysolarwinds/entities/orion/nodes.py:566-581 | success exactly when a start is set, and an end too when one was asked for; a missing key is a KeyError |
| `NodeEntity.Node.Save` | pysolarwinds/entities/orion/nodes.py:653-662 | the payload is always sent as one update and the record then takes every mapped attribute; a non-string method fails before anything is sent |
| `NodeEntity.Node.Remanage` | pysolarwinds/entities/orion/nodes.py:632-651 | an unmanaged node gets one Remanage invoke naming N:id and is read again; a managed node is SWObjectManageError and a record without UnManaged a KeyError, both sending nothing |
| `NodeEntity.Node.Unmanage` | pysolarwinds/entities/orion/nodes.py:602-630 | one Unmanage invoke naming N:id with the start and end (defaults when falsy) and False, then a read |
| `NodeEntity.Node.ResumeAlerts` | pysolarwinds/entities/orion/nodes.py:583-588 | exactly one ResumeAlerts invoke naming the node's URI, answering True |
| `NodeEntity.Node.SuppressAlerts` | pysolarwinds/entities/orion/nodes.py:526-581 | one SuppressAlerts invoke (start defaulted, end None when not given), then the state read back, and success exactly as the state confirms it |
| `NodeEntity.Node.SuppressionState` | pysolarwinds/entities/orion/nodes.py:448-452 | the first record the state verb answers, an IndexError when there is none, with one invoke logged |
| `NodeEntity.IdentifiedCases` | pysolarwinds/entities/__init__.py:38-48 | given nothing a ValueError; given only a caption that matches none or several nodes the lookup's error; given a URI it is kept and no lookup is made |
| `NodeEntity.Find` | pysolarwinds/entities/__init__.py:38-43 | the outcome of the lookup step, with its query logged when it fails |
| `NodeEntity.Identify` | pysolarwinds/entities/__init__.py:21-52 | a lookup error is passed on; otherwise a fresh entity with the resolved URI, the record and the id given or read from NodeID, and a KeyError when that is missing |
| `NodeEntity.NewNode` | pysolarwinds/entities/orion/nodes.py:141-166 | the identified entity with the attributes set from its record; a record without EngineID fails |
| `OrionNodeSettings.CredentialAttr` | pysolarwinds/models/orion/node_settings.py:74-76 | defined exactly for a string type ending in a digit (TypeError for a non-string, ValueError otherwise), and then `snmpv` + that digit + ... + `_cred` |
| `OrionNodeSettings.ModeCases` | pysolarwinds/models/orion/node_settings.py:83-94 | the two mapped names give the modes "ro" and "rw" |
| `OrionNodeSettings.V3AttrIsMapped` | pysolarwinds/models/orion/node_settings.py:70-94 | for an SNMPv3 type the attribute built is exactly the one the setting map names |
| `OrionNodeSettings.ModesApart` | pysolarwinds/models/orion/node_settings.py:70-94 | the read-only and read-write settings never fill the same attribute |
| `OrionNodeSettings.NodeSetting.constructor` | pysolarwinds/models/orion/node_settings.py:22-50 | node, name, value, id and the attribute it sets are stored as given |
| `OrionNodeSettings.FirstMatch` | pysolarwinds/models/orion/node_settings.py:156-163 | the first position whose id or name matches, or the length when none does |
| `OrionNodeSettings.RemoveFound` | pysolarwinds/models/orion/node_settings.py:199-203 | removing the setting `get` found takes out exactly its position |
| `OrionNodeSettings.FetchKeepsUntargeted` | pysolarwinds/models/orion/node_settings.py:103-116 | an attribute no fetched row targets keeps its credential |
| `OrionNodeSettings.FetchSetsLastTarget` | pysolarwinds/models/orion/node_settings.py:103-116 | after a successful fetch an attribute holds the credential of the last row targeting it |
| `OrionNodeSettings.AbsentStep` | pysolarwinds/models/orion/node_settings.py:228-230 | for an attribute holding None the save step succeeds and leaves the credentials alone |
| `OrionNodeSettings.SaveInSyncIsNoop` | pysolarwinds/models/orion/node_settings.py:221-249 | a list in step with the node's attributes is left as it is, with nothing sent |
| `OrionNodeSettings.StepWritesOnlySql` | pysolarwinds/models/orion/node_settings.py:223-249 | one pass of `save` writes only SQL statements |
| `OrionNodeSettings.SaveWritesOnlySql` | pysolarwinds/models/orion/node_settings.py:221-249 | `save` writes only SQL statements |
| `OrionNodeSettings.AddSettles` | pysolarwinds/models/orion/node_settings.py:247-249 | a missing setting is in step after `save` added it |
| `OrionNodeSettings.StaleSettingAddedAgain` | pysolarwinds/models/orion/node_settings.py:234-246 | as written a stale setting stays where `get` finds it, so the next `save` adds yet another row |
| `OrionNodeSettings.IntendedStepSettles` | pysolarwinds/models/orion/node_settings.py:205-219 | with the delete, a stale setting is replaced and the next `save` of that entry changes nothing |
| `OrionNodeSettings.NodeSettings.constructor` | pysolarwinds/models/orion/node_settings.py:96-100 | the settings start empty for the given node |
| `OrionNodeSettings.NodeSettings.Create` | pysolarwinds/models/orion/node_settings.py:118-140 | a name outside the map gives a plain setting and sends nothing; a credential name with a falsy value is a ValueError; otherwise the credential is read once and its attribute set on the node, or the type error raised |
| `OrionNodeSettings.NodeSettings.CreateFromRow` | pysolarwinds/models/orion/node_settings.py:112-116 | one row becomes a setting with its name, value and id, with the node's credentials updated as `create` does |
| `OrionNodeSettings.NodeSettings.Fetch` | pysolarwinds/models/orion/node_settings.py:103-116 | the list is rebuilt with one setting per row in row order, a row missing a column is a KeyError, and the node's credentials are those the rows set; nothing is written |
| `OrionNodeSettings.NodeSettings.Get` | pysolarwinds/models/orion/node_settings.py:142-163 | neither name nor id is a ValueError; otherwise the first setting whose id or name matches, or None |
| `OrionNodeSettings.NodeSettings.Add` | pysolarwinds/models/orion/node_settings.py:165-197 | the INSERT then the lookup query; the setting takes the found row's id and joins the list, or SWObjectCreationError with the list unchanged |
| `OrionNodeSettings.NodeSettings.Delete` | pysolarwinds/models/orion/node_settings.py:199-203 | the DELETE by id is sent; the setting's first occurrence is removed, or a ValueError with the list unchanged |
| `OrionNodeSettings.NodeSettings.UpdateAsWritten` | pysolarwinds/models/orion/node_settings.py:205-219 | as written only the add happens: the old setting stays in the list |
| `OrionNodeSettings.NodeSettings.Update` | pysolarwinds/models/orion/node_settings.py:205-219 | as intended the new setting is added and then the old one removed, with the INSERT and DELETE sent |
| `OrionNodeSettings.NodeSettings.DeleteReplaced` | pysolarwinds/models/orion/node_settings.py:218-219 | after the add, the old setting is deleted exactly when it was listed, with one DELETE sent after the INSERT |
| `OrionNodeSettings.NodeSettings.SaveEntry` | pysolarwinds/models/orion/node_settings.py:223-249 | one pass of the loop leaves the list, credentials and statements the save step describes |
| `OrionNodeSettings.NodeSettings.SaveAbsent` | pysolarwinds/models/orion/node_settings.py:228-230 | the found setting, if any, is deleted |
| `OrionNodeSettings.NodeSettings.SavePresent` | pysolarwinds/models/orion/node_settings.py:232-249 | a found setting holding the id is left alone; otherwise a new one is created and stored |
| `OrionNodeSettings.NodeSettings.AddNew` | pysolarwinds/models/orion/node_settings.py:242-249 | a missing or stale setting is created and stored as the save step describes |
| `OrionNodeSettings.NodeSettings.StoreNew` | pysolarwinds/models/orion/node_settings.py:248-249 | the added row joins the list's rows, with one INSERT sent |
| `OrionNodeSettings.NodeSettings.CreateNew` | pysolarwinds/models/orion/node_settings.py:242-248 | the created setting holds the name and id, and the node's credentials change as `create` does; nothing is written |
| `OrionNodeSettings.NodeSettings.Store` | pysolarwinds/models/orion/node_settings.py:242-249 | the found setting is updated as written, otherwise added; either way only the INSERT is sent and the new setting joins the list |
| `OrionNodeSettings.NodeSettings.Save` | pysolarwinds/models/orion/node_settings.py:221-249 | each map entry in order with the first failure ending the pass; list, credentials and statements are those the save function gives |
| `OrionNodeSettings.NewNodeSettings` | pysolarwinds/models/orion/node_settings.py:96-101 | construction fetches: its failure propagates, and on success the list holds one setting per row |
| `Pollers.SaveFlag` | pysolarwinds/entities/__init__.py:83-95 | for the poller write map the save diff is the Enabled flag exactly when it differs, and the write-back stores it |
| `Pollers.PollerLookup` | pysolarwinds/entities/orion/pollers.py:39-50 | without a poller type None; with one the first row of its query, or SWObjectNotFoundError when there is none |
| `Pollers.IdentifiedCases` | pysolarwinds/entities/__init__.py:38-48 | given nothing a poller is found by type (SWObjectNotFoundError when absent) or refused with ValueError without a type; a given record or URI is used as it is |
| `Pollers.NameOf` | pysolarwinds/entities/orion/pollers.py:56-74 | the display name unless falsy, else the poller type; a record without DisplayName is a KeyError |
| `Pollers.FrameOne` | pysolarwinds/entities/orion/pollers.py:194-196 | updating one poller of a list changes the snapshots at that position alone |
| `Pollers.Poller.constructor` | pysolarwinds/entities/orion/pollers.py:33-37 | the entity and node are stored and the name is the one its record and type give |
| `Pollers.Poller.Disable` | pysolarwinds/entities/orion/pollers.py:87-94 | an enabled poller clears its flag and sends Enabled False; a disabled one sends nothing; afterwards it is disabled and keeps its name |
| `Pollers.Poller.Enable` | pysolarwinds/entities/orion/pollers.py:96-103 | a disabled poller sets its flag and sends Enabled True; an enabled one sends nothing; afterwards it is enabled and keeps its name |
| `Pollers.Poller.Delete` | pysolarwinds/entities/orion/pollers.py:80-85 | one delete call for the URI, then the poller leaves its node's list if it is listed, which stays valid |
| `Pollers.Find` | pysolarwinds/entities/orion/pollers.py:39-50 | the lookup step's outcome, with the type query logged exactly when it runs |
| `Pollers.Identify` | pysolarwinds/entities/__init__.py:21-52 | a lookup error is passed on; otherwise a fresh entity with the resolved URI, the record and the id given or read from PollerID, a KeyError when that is missing |
| `Pollers.NewPoller` | pysolarwinds/entities/orion/pollers.py:25-37 | the identified poller with the given or recorded type and the record's Enabled flag; a KeyError without PollerID or Enabled |
| `Pollers.RowError` | pysolarwinds/entities/orion/pollers.py:214-216 | a row builds exactly when it is non-empty and has PollerID and Enabled; an empty row is a ValueError, a missing key a KeyError |
| `Pollers.Target` | pysolarwinds/entities/orion/pollers.py:169-173 | a poller passed in is used; a text names the listed poller of that name; anything else is an AttributeError |
| `Pollers.TargetAsWritten` | pysolarwinds/entities/orion/pollers.py:169-173 | as written a text never reaches a poller, since the list's subscript answers the text itself |
| `Pollers.PollerFromRow` | pysolarwinds/entities/orion/pollers.py:214-216 | a poller exactly when the row builds, built from that row with no call |
| `Pollers.NamesOf` | pysolarwinds/entities/orion/pollers.py:128-131 | one name per poller, in list order |
| `Pollers.RowsErrorFirst` | pysolarwinds/entities/orion/pollers.py:210-216 | building all rows succeeds exactly when each row builds; a failure is the first failing row's error |
| `Pollers.AddCallsAt` | pysolarwinds/entities/orion/pollers.py:153-161 | per name, a create of a poller with that type on the node, then a read of the new URI |
| `Pollers.SwitchCalls` | pysolarwinds/entities/orion/pollers.py:192-196 | at most one update per poller, and none when every flag is already as wanted |
| `Pollers.RemoveValid` | pysolarwinds/entities/orion/pollers.py:83-84 | removing a listed poller keeps the list valid and drops it |
| `Pollers.CreatePoller` | pysolarwinds/entities/orion/pollers.py:153-162 | the create and read-back calls for one name, and the poller built from the record read |
| `Pollers.PollerList.constructor` | pysolarwinds/entities/orion/pollers.py:112-126 | the list starts empty for the node |
| `Pollers.PollerList.Forget` | pysolarwinds/entities/orion/pollers.py:83-84 | the item leaves the list if it is there, and the list stays valid |
| `Pollers.PollerList.AddOne` | pysolarwinds/entities/orion/pollers.py:148-163 | a name already listed is SWObjectExistsError with nothing sent; otherwise the create and read are sent and the new poller is appended |
| `Pollers.PollerList.Add` | pysolarwinds/entities/orion/pollers.py:133-167 | on success one new poller per name appended, each showing the record read back for its name (`NewRecords`), with exactly the add calls sent, each name absent from the list before it; a first name already taken sends nothing; the list stays valid |
| `Pollers.NewRecordsAt` | pysolarwinds/entities/orion/pollers.py:153-161 | entry `i` of `NewRecords` is the record read back for the `i`th name |
| `Pollers.AppendedGrow` | pysolarwinds/entities/orion/pollers.py:153-163 | appending the poller that shows the next record read back extends what the appended pollers show by one |
| `Pollers.UnlistedKept` | pysolarwinds/entities/orion/pollers.py:148-151 | appending a poller leaves the lookup of names among the pollers listed before unchanged |
| `Pollers.UnlistedNext` | pysolarwinds/entities/orion/pollers.py:148-151 | a name not found among all the pollers listed is recorded as unlisted at its turn |
| `Pollers.PollerList.Fetch` | pysolarwinds/entities/orion/pollers.py:210-216 | one query; no rows keep the list; otherwise the pollers built from the rows, or the first row's error with the list kept |
| `Pollers.PollerList.BuildAll` | pysolarwinds/entities/orion/pollers.py:214-216 | the pollers built from every row in order, or the first row's error, with no call |
| `Pollers.PollerList.BuildNext` | pysolarwinds/entities/orion/pollers.py:214-216 | one more row built extends the built list by a new poller |
| `Pollers.PollerList.DeleteAll` | pysolarwinds/entities/orion/pollers.py:175-184 | a fetch, then one delete call for the URIs of every poller listed (those listed before when the query is empty), and an empty list |
| `Pollers.PollerList.BuiltUris` | pysolarwinds/entities/orion/pollers.py:178-180 | pollers built from rows have the rows' URIs |
| `Pollers.PollerList.DeleteListed` | pysolarwinds/entities/orion/pollers.py:178-181 | one delete call for every listed poller's URI, none for an empty list, and the list emptied |
| `Pollers.PollerList.Delete` | pysolarwinds/entities/orion/pollers.py:169-173 | the target poller is deleted with one call and leaves the list; a target error sends nothing |
| `Pollers.PollerList.DeleteAsWritten` | pysolarwinds/entities/orion/pollers.py:169-173 | as written only a poller passed in is deleted; a text fails before any call |
| `Pollers.PollerList.Switch` | pysolarwinds/entities/orion/pollers.py:186-202 | as intended the target is switched as its own disable or enable does, with at most one update sent; the list is unchanged |
| `Pollers.PollerList.SwitchAsWritten` | pysolarwinds/entities/orion/pollers.py:186-202 | as written a poller named by text is never switched |
| `Pollers.PollerList.SwitchAt` | pysolarwinds/entities/orion/pollers.py:194-196 | the i-th poller is switched and every other one is left alone |
| `Pollers.PollerList.SwitchAll` | pysolarwinds/entities/orion/pollers.py:192-196 | every poller whose flag differs is switched and exactly its update is sent |
| `Pollers.PollerList.DisableAll` | pysolarwinds/entities/orion/pollers.py:192-196 | afterwards no poller is enabled, with one update per poller that was |
| `Pollers.PollerList.EnableAll` | pysolarwinds/entities/orion/pollers.py:204-208 | as intended every poller is enabled afterwards, with one update per poller that was not |
| `Pollers.PollerList.EnableAllAsWritten` | pysolarwinds/entities/orion/pollers.py:204-208 | as written no poller and no call changes, since each disabled poller is disabled again |
| `OrionPollers.SavePayload` | pysolarwinds/endpoints/orion/pollers.py:15-17 | `save` sends exactly the flag under Enabled |
| `OrionPollers.NameOf` | pysolarwinds/endpoints/orion/pollers.py:35-57 | the display name unless falsy, else the recorded type ("" without one); a record without DisplayName is a KeyError |
| `OrionPollers.RowError` | pysolarwinds/endpoints/orion/pollers.py:19-29 | a row builds exactly when it is non-empty and has Enabled; an empty row is a ValueError |
| `OrionPollers.OrionPoller.constructor` | pysolarwinds/endpoints/orion/pollers.py:27-29 | the endpoint and node are stored as given |
| `OrionPollers.OrionPoller.Disable` | pysolarwinds/endpoints/orion/pollers.py:69-75 | an enabled poller clears its flag and sends Enabled False; a disabled one sends nothing |
| `OrionPollers.OrionPoller.Enable` | pysolarwinds/endpoints/orion/pollers.py:77-83 | a disabled poller sets its flag and sends Enabled True; an enabled one sends nothing |
| `OrionPollers.OrionPoller.Delete` | pysolarwinds/endpoints/orion/pollers.py:63-67 | one delete call for the URI, then the poller leaves its node's list if listed, which stays valid |
| `OrionPollers.PollerFromRow` | pysolarwinds/endpoints/orion/pollers.py:117 | a poller exactly when the row builds, from the record alone and with no call |
| `OrionPollers.Names` | pysolarwinds/endpoints/orion/pollers.py:97-99 | every poller's name in order, exactly when none raises |
| `OrionPollers.RemoveValid` | pysolarwinds/endpoints/orion/pollers.py:65-66 | removing a listed poller keeps the list valid and drops it |
| `OrionPollers.Target` | pysolarwinds/endpoints/orion/pollers.py:125-155 | a poller passed in is used; a text names the listed poller of that name; anything else is an AttributeError |
| `OrionPollers.TargetAsWritten` | pysolarwinds/endpoints/orion/pollers.py:125-155 | as written a text never reaches a poller, since the list's subscript answers the text itself |
| `OrionPollers.CreatePoller` | pysolarwinds/endpoints/orion/pollers.py:108-117 | the create and read-back calls for one name, and the poller built from the record read |
| `OrionPollers.RowsErrorNone` | pysolarwinds/endpoints/orion/pollers.py:169-173 | building all rows succeeds exactly when each row builds |
| `OrionPollers.OrionPollerList.constructor` | pysolarwinds/endpoints/orion/pollers.py:92-95 | the list starts empty for the node |
| `OrionPollers.OrionPollerList.Forget` | pysolarwinds/endpoints/orion/pollers.py:65-66 | the item leaves the list if it is there, and the list stays valid |
| `OrionPollers.OrionPollerList.AddOne` | pysolarwinds/endpoints/orion/pollers.py:104-118 | a name already listed is SWObjectExists with nothing sent; otherwise the create and read are sent and the new poller appended |
| `OrionPollers.OrionPollerList.Add` | pysolarwinds/endpoints/orion/pollers.py:101-123 | on success one new poller per name appended, each built from the record read back for its name (`NewRecords`), with exactly the add calls sent, each name absent from the list before it, and True; a first name already taken sends nothing; the list stays valid |
| `OrionPollers.AppendedGrow` | pysolarwinds/endpoints/orion/pollers.py:108-118 | appending the poller built from the next record read back extends what the appended pollers show by one |
| `OrionPollers.UnlistedKept` | pysolarwinds/endpoints/orion/pollers.py:104-107 | appending a poller leaves the lookup of names among the pollers listed before unchanged |
| `OrionPollers.UnlistedNext` | pysolarwinds/endpoints/orion/pollers.py:104-107 | a name not found among all the pollers listed is recorded as unlisted at its turn |
| `OrionPollers.OrionPollerList.Delete` | pysolarwinds/endpoints/orion/pollers.py:125-129 | the target poller is deleted with one call and leaves the list, and True; a target error sends nothing |
| `OrionPollers.OrionPollerList.DeleteAsWritten` | pysolarwinds/endpoints/orion/pollers.py:125-129 | as written only a poller passed in is deleted; a text fails before any call |
| `OrionPollers.OrionPollerList.Switch` | pysolarwinds/endpoints/orion/pollers.py:141-155 | as intended the target is switched as its own disable or enable does, with at most one update; the list is unchanged |
| `OrionPollers.OrionPollerList.SwitchAsWritten` | pysolarwinds/endpoints/orion/pollers.py:141-155 | as written a poller named by text is never switched |
| `OrionPollers.OrionPollerList.DeleteAll` | pysolarwinds/endpoints/orion/pollers.py:131-139 | without fetching, one delete call for every listed poller's URI (none for an empty list), the list emptied, and True |
| `OrionPollers.OrionPollerList.SwitchAt` | pysolarwinds/endpoints/orion/pollers.py:147-160 | the i-th poller is switched and every other one left alone |
| `OrionPollers.OrionPollerList.SwitchAll` | pysolarwinds/endpoints/orion/pollers.py:146-150 | every poller whose flag differs is switched and exactly its update sent |
| `OrionPollers.OrionPollerList.DisableAll` | pysolarwinds/endpoints/orion/pollers.py:146-150 | afterwards no poller is enabled, with one update per poller that was, and True |
| `OrionPollers.OrionPollerList.EnableAll` | pysolarwinds/endpoints/orion/pollers.py:157-161 | as intended every poller is enabled afterwards, with one update per poller that was not, and True |
| `OrionPollers.OrionPollerList.EnableAllAsWritten` | pysolarwinds/endpoints/orion/pollers.py:157-161 | as written no poller and no call changes, and True |
| `OrionPollers.OrionPollerList.DisableDisabled` | pysolarwinds/endpoints/orion/pollers.py:69-71 | disabling a disabled poller changes nothing and sends nothing |
| `OrionPollers.OrionPollerList.BuildAll` | pysolarwinds/endpoints/orion/pollers.py:170-172 | the pollers of every row in order, or the first failing row's error |
| `OrionPollers.OrionPollerList.Fetch` | pysolarwinds/endpoints/orion/pollers.py:163-173 | one query; no rows keep the list; otherwise the pollers built from the rows, or the first row's error with the list kept |
| `Volumes.NameOf` | pysolarwinds/entities/orion/volumes.py:100-215 | the name is the untruncated VolumeDescription, "" when falsy, and a KeyError when the record has none |
| `Volumes.YesFlagExact` | pysolarwinds/entities/orion/volumes.py:122-125 | only the text "Y" counts as responding: a missing key, a true boolean or any other text does not |
| `Volumes.RowError` | pysolarwinds/entities/orion/volumes.py:21-35 | a row builds exactly when it is non-empty and has VolumeID; an empty row is a ValueError |
| `Volumes.Volume.constructor` | pysolarwinds/entities/orion/volumes.py:29-30 | the entity and node are stored and the name is the one its record gives |
| `Volumes.Volume.Delete` | pysolarwinds/entities/orion/volumes.py:277-282 | one delete call for the URI, then the volume leaves its node's list if listed, which stays valid |
| `Volumes.VolumeFromRow` | pysolarwinds/entities/orion/volumes.py:326-328 | a volume exactly when the row builds, from the record alone and with no call |
| `Volumes.NamesOf` | pysolarwinds/entities/orion/volumes.py:100-105 | one name per volume, in list order |
| `Volumes.RemoveValid` | pysolarwinds/entities/orion/volumes.py:280-281 | removing a listed volume keeps the list valid and drops it |
| `Volumes.RemoveEachCounts` | pysolarwinds/entities/orion/volumes.py:305-306 | the removals all succeed exactly when each volume is listed at least as often as it is named, and then the list loses exactly those volumes |
| `Volumes.RemoveEachValid` | pysolarwinds/entities/orion/volumes.py:305-306 | the removals leave a valid list of listed volumes, without any removed one after a full run |
| `Volumes.RowsErrorNone` | pysolarwinds/entities/orion/volumes.py:325-328 | building all rows succeeds exactly when each row builds |
| `Volumes.VolumeList.constructor` | pysolarwinds/list.py:17-20 | the list starts empty for the node |
| `Volumes.VolumeList.Forget` | pysolarwinds/entities/orion/volumes.py:280-281 | the item leaves the list if it is there, and the list stays valid |
| `Volumes.VolumeList.BuiltValid` | pysolarwinds/entities/orion/volumes.py:326-328 | volumes built from rows form a valid list with the rows' URIs |
| `Volumes.VolumeList.DeleteOne` | pysolarwinds/entities/orion/volumes.py:308-309 | a single volume is deleted with one call and leaves the list |
| `Volumes.VolumeList.DeleteMany` | pysolarwinds/entities/orion/volumes.py:303-307 | one delete call for all the URIs, then each volume removed in turn; success exactly when each is listed as often as named, leaving the list less those volumes, else a ValueError |
| `Volumes.VolumeList.RemoveAll` | pysolarwinds/entities/orion/volumes.py:305-306 | the list after the removals, and success exactly when all of them succeeded |
| `Volumes.VolumeList.BuildAll` | pysolarwinds/entities/orion/volumes.py:326-328 | the volumes of every row in order, or the first failing row's error, with no call |
| `Volumes.VolumeList.Fetch` | pysolarwinds/entities/orion/volumes.py:322-328 | one query; no rows keep the list; otherwise the volumes built from the rows, or the first row's error with the list kept |
| `Volumes.VolumeList.DeleteAll` | pysolarwinds/entities/orion/volumes.py:311-320 | a fetch, then one delete call for every listed volume's URI (those listed before when the query is empty) and an empty list; a failing row ends it with the list kept |
| `Utils.LegacyParseResponse` | solarwinds/utils.py:4-15 | None gives no rows; a response without "results" raises; otherwise no rows exactly when the list is empty, the single row itself exactly when it has one, and the whole list exactly when it has more |
| `Utils.ParseResponse` | pysolarwinds/utils.py:5-14 | a missing or empty response and an empty "results" give None; a non-empty "results" comes back whole; an empty-free response without "results" raises |
| `Utils.ParseGenerationsOnOneRow` | solarwinds/utils.py:10-11 | on a one-row result the older generation unwraps the row while the newer one returns the one-element list |
| `Utils.Sanitized` | solarwinds/utils.py:18-23 | the sanitised record has the same keys, each value turned into its integer when it is an all-digit string and left alone otherwise |
| `Utils.SanitizeSwdata` | solarwinds/utils.py:18-23 | the key-by-key overwriting loop returns exactly `Sanitized` of the record |
| `Utils.SanitizeIdempotent` | solarwinds/utils.py:18-23 | sanitising a sanitised record changes nothing |
| `Utils.SplitWordsOnlyAddsUnderscores` | solarwinds/utils.py:28 | the first substitution keeps every character in order and only inserts underscores |
| `Utils.SplitCapsOnlyAddsUnderscores` | solarwinds/utils.py:29 | the second substitution keeps every character in order and only inserts underscores |
| `Utils.CamelToSnakeShape` | solarwinds/utils.py:26-29 | removing the underscores from the result gives the lower-cased input without its underscores, and the result has no capital letter |
| `Utils.SplitCapsMeaning` | solarwinds/utils.py:29 | the second substitution puts an underscore between each lower-case letter or digit and the capital after it, and nowhere else |
| `Utils.SplitWordsInCamel` | solarwinds/utils.py:28 | on a camel-case name, every underscore the first substitution adds is one the second would add anyway |
| `Utils.CamelToSnakeMeaning` | solarwinds/utils.py:26-29 | on a camel-case name the result is the name with an underscore between each lower-case letter or digit and the capital after it, lower-cased |
| `Utils.PrintDict` | solarwinds/utils.py:32-33 | the rendering holds no brace and no single quote |
| `Utils.PrintDictPlain` | solarwinds/utils.py:32-33 | for keys and string values of printable ASCII without backslashes, braces or single quotes, which `repr` shows as they are, the rendering is exactly `k: v` pairs joined by ", " |

## Left out

Outside the model:

- The transport is not modelled. This covers `pysolarwinds/swis.py`, `solarwinds/api.py` and `solarwinds/client.py`: HTTP, JSON, TLS and status codes. The `Transport.Swis` stub stands in for all three, and `pysolarwinds.api` is not part of this model.
- Transport.Swis.Delete: one URI and a list of URIs are both logged as `DeleteCall` of the URIs deleted. The source sends an HTTP DELETE for a single URI and a BulkDelete for a list (pysolarwinds/swis.py:166-169). That choice of request is transport, and the model does not tell the two apart.
- Logging is not modelled. No model member writes a log line or builds a message.
- The f-strings of some log messages raise in the source, and the model's methods do not. Examples are `{self.node}` in `NewEndpoint.save` (pysolarwinds/endpoint.py:644) on an endpoint with no `node`, and the poller messages of pysolarwinds/endpoints/orion/pollers.py:67, 75, 83 and 120-122.
- Date and time handling is not modelled: `strptime`, `strftime`, `utcnow`, uptime and pytz conversions. Where the source reads the clock, the model takes the value as a parameter, as in `LegacyNode.OrionNode.Unmanage`'s `hourAgo` and `dayAhead`. The unmanage window is the same.
- The polling wait loops with `sleep` and timeouts in pysolarwinds/endpoints/orion/node.py are not modelled. They depend on time and on remote status.
- Floating-point metric getters (CPU, memory, bandwidth, percentages, iops) are not modelled. They are field reads of floating-point values.
- pypika query construction is abstracted. A query is a `Transport.Query`: an entity and a list of field/value conditions.
- `Interfaces.ListQuery` stands for the fetch query of all three interface lists, "interfaces of node N". The two pypika queries and the hand-written SELECT of pysolarwinds/endpoints/orion/interface.py:131-148 differ in their select lists, and the model does not tell them apart.
- The netaddr `EUI` MAC addresses are not modelled. Neither are the STATUS_MAP and NODE_DISCOVERY_STATUS_MAP tables: `pysolarwinds.maps` is not part of this model.
- User-supplied exclusion patterns are opaque. `re.search(pattern, name)` is a caller-given predicate on the name, which is why the parameters are `patterns: seq<string -> bool>`.
- A plain string passed as `delete_interfaces` or `delete_volumes` is not modelled. The source would iterate it character by character as single-character patterns. The model takes a sequence of patterns only.
- Python dict order is not modelled. Maps are unordered, and a declared order the source iterates is kept as a `seq`.
- Python's `True == 1` is not modelled. `PyValue.Value` keeps `Bool` and `Int` apart, so `Bool(true) != Int(1)`, where Python's comparisons treat them as equal.
- Text is ASCII only: `lower`, `upper`, `strip`, `\s`, `\d` and `int()`. `Text.IsSpace` covers space, tab, newline, carriage return, vertical tab and form feed. It leaves out \x1c-\x1f and the Unicode spaces that Python's `str.strip` and `\s` also accept.
- `Utils.ValueRepr` shows a string between single quotes as it is. Python's `repr` switches to double quotes for a text holding a single quote, and escapes backslashes, newlines, tabs and other non-printable characters. So `Utils.PrintDict` agrees with the source only for keys and string values of printable ASCII without a backslash or a single quote, which is what `Utils.PrintDictPlain` requires (`Utils.Plain`).
- `Utils.SanitizeSwdata` returns the sanitized dictionary. `sanitize_swdata` updates its argument in place, so aliases of that dictionary are not modelled.
- Object identity and aliasing between Python lists is not modelled. The delete loops of the interface and volume lists remove items from the list object they iterate, and the model's list is a value that the methods reassign.

Endpoints and entities:

- Child objects are not modelled. This covers `_init_child_objects`, the `child_objects` branch of `Endpoint.save` (pysolarwinds/endpoints/__init__.py:537-542) and the reflection-based dispatch via `dir()`. Of the endpoint classes modelled, only the legacy node declares one, its `map_point`. The entities `Node` keeps its `interfaces`, `pollers`, `settings`, `volumes` and `polling_engine` (pysolarwinds/entities/orion/nodes.py:155-166) as separate objects, each modelled by its own module.
- `_resolve_endpoint_attrs` is not modelled, nor the subclass hooks that `Endpoint.__init__` calls through it. The endpoints of the model carry their attributes as given. The interface lists, which never define the method, raise AttributeError where they call it (`OrionInterfaces.InterfaceList.DiscoverAsWritten`, `LegacyInterfaces.InterfaceList.DiscoverAsWritten`).
- Entities.Entity.Save: stops after writing back `data`, as if `updates` were a fresh dict. Line 99-100 of pysolarwinds/entities/__init__.py then calls `.save()` on `custom_properties`, which for every entity here is a plain dict {}. So in the source every `save` with that attribute raises AttributeError after the write.
- The same cut-off applies to everything that saves through `Entity.save`. `Pollers.Poller.Enable`, `Pollers.Poller.Disable`, `Pollers.PollerList.DisableAll` and `NodeEntity.Node.Save` succeed in the model. In the source they raise AttributeError once the update has been sent.
- The shared mutable default `updates={}` of `Entity.save` (pysolarwinds/entities/__init__.py:83) is not modelled: `Entities.Entity.Save` uses a fresh map. `Endpoints.SharedDefaultSave` models the same default of `NewEndpoint.save` in pysolarwinds/endpoints/__init__.py:615-620, and its consequence is a finding. `Endpoints.NewEndpoint.Save` follows pysolarwinds/endpoint.py:638-643, which builds a fresh dict on each call.
- NodeEntity.Node.constructor: the entities `Node` builds its settings and then sets `snmpv3_ro_cred` and `snmpv3_rw_cred` back to None (pysolarwinds/entities/orion/nodes.py:160, 164-165). That erases what the settings' construction stored on the node. The model's constructor does not build the settings list, so the reset is not modelled.
- `enforce_icmp_status_polling` (pysolarwinds/entities/orion/nodes.py:500-524) is not modelled.
- The legacy `_update_object` override (solarwinds/endpoints/orion/node.py:95-103) is not modelled, because nothing calls it.
- The hostname swap around node discovery (pysolarwinds/endpoints/orion/node.py:576-611) is transport configuration and is not modelled.
- Interfaces.InterfaceList.Discover: does not model the `swis.host` swap to the polling engine's address around the discovery invoke (pysolarwinds/entities/orion/interfaces.py:545-550). It also does not model that the host is left switched when the invoke raises.
- OrionInterfaces.InterfaceList.Discover: does not model the `swis.hostname` swap. That swap fails in the source, as `DiscoverAsWritten` states.
- LegacyInterfaces.InterfaceList.Discover: does not model the `swis.hostname` swap. That swap fails in the source, as `DiscoverAsWritten` states.
- LegacyInterfaces.InterfaceList.Discover: the existence check of the node is the parameter `nodeExists`, not a query. The same holds for `LegacyInterfaces.InterfaceList.Monitor` and its steps.
- LegacyInterfaces.InterfaceList.DeleteEach: requires the interfaces to delete to be pairwise distinct. Its caller passes a selection from the list, which has no repeats. A repeated interface, which the source would try to delete twice, is not modelled.
- LegacyInterfaces.InterfaceList.Monitor: does not ensure `Valid()` of the list afterwards. The discovery step only reads the list, and the delete step removes interfaces one at a time.
- LegacyInterfaces.InterfaceList.Discover: its `modifies` leaves out `existing`, because discovery does not change the listed interfaces.
- Endpoints.Endpoint.Create: when the server answers an empty URI to the creation, the read-back falls back on a lookup by attributes, and the answer is then not stated. For a non-empty URI it is `CreateReadBack`.
- LegacyEndpoints.LegacyEndpoint.Create: after the writes, the model states only that any answer is True. Which errors the read-back (`_get_swdata`, `_get_id`, `refresh`) raises is not characterised.
- LegacyModelNode.Node.Diff: the read of the node's record cannot fail in the `Transport.Swis` stub, so an error raised by `swis.read` is not modelled.
- LegacyModelNode.Node.GetUri: when the row found has a falsy URI, `get_id` calls `get_uri` again, which queries again, until Python raises RecursionError. The model answers RecursionError after one query, where the source sends one query per level of recursion.
- LegacyModelNode.NewNode: an explicit `properties=None` argument is treated as a missing key, since the model has a single Null for both.
- LegacyNode.NewOrionNode: the `pollers` argument is a sequence of poller types, and an empty one stands for both None and an empty list, which the source's `pollers or self._get_pollers()` treats alike. The node's latitude and longitude (floating point) and its `map_point` child object (a `WorldMapPoint`) are not modelled.
- Of the legacy node model (solarwinds/models/node.py), `create`, `delete`, `details`, `enable_pollers` and `update` are not modelled. The construction, `diff`, `get_uri`, `get_id` and `exists` are.
- ModelNode.UpdateNode: the source updates the caller's `properties` dict in place with Caption and IPAddress before sending. The model sends the updated copy and does not model the caller seeing the change.
- The credential updater classes are not modelled: `pysolarwinds/entities/orion/credentials/*`, `pysolarwinds/endpoints/orion/credentials/snmpv2.py` and `snmpv3.py`. They are thin single-call wrappers.
- The per-type credential models are not modelled either. Neither are the engines and world-map files, `pysolarwinds/endpoints/orion/volumes.py`, `new_node.py` or `solarwinds/core/endpoint.py`. These are accessors, or code that cannot run as written (undefined names).
- Pollers.PollerList.Switch: states `Valid()` of the list afterwards only when the poller passed in is not itself one of the listed pollers. A listed poller passed in is switched and its flag stated, but the list invariant is not restated for that case.
- OrionPollers.OrionPollerList.Switch: like the version in `Pollers`, states `Valid()` afterwards only when the poller passed in is not itself listed.

## Findings

Each row names the member that follows the code as written, with the lemma that shows the difference, and the corrected member, with its property proved.

| source | as written | input that shows it | evidently intended | confidence | as-written member | corrected member |
|---|---|---|---|---|---|---|
| pysolarwinds/list.py:41-43 | `[name]` returns the key text itself when an item has that name | an item named "a", key "a": the answer is "a" | the item named "a", as `get` finds it | not executed | `BaseLists.SubscriptAsWritten`, `BaseLists.SubscriptAnswersKey` | `BaseLists.Subscript`, `BaseLists.SubscriptIsGet` |
| pysolarwinds/list.py:41-43 | a list operation given a name acts on what `[name]` answers, the text | `delete("a")` with a listed poller "a" calls `"a".delete()`: AttributeError | act on the item of that name | not executed | `BaseLists.TargetAsWritten`, `BaseLists.TargetByNameFails` | `BaseLists.Target` |
| pysolarwinds/entities/orion/pollers.py:169-202 | `delete`, `disable` and `enable` of a poller named by text fail before any call | `delete("N.Status.ICMP.Native")` on a list holding that poller: AttributeError, nothing deleted | the named poller deleted or switched | not executed | `Pollers.TargetAsWritten`, `Pollers.PollerList.DeleteAsWritten`, `Pollers.PollerList.SwitchAsWritten` | `Pollers.Target`, `Pollers.PollerList.Delete`, `Pollers.PollerList.Switch` |
| pysolarwinds/endpoints/orion/pollers.py:125-155 | the same three operations of `OrionPollers` fail for a name | `disable("N.Status.ICMP.Native")` on a list holding that poller: AttributeError | the named poller deleted or switched | not executed | `OrionPollers.TargetAsWritten`, `OrionPollers.OrionPollerList.DeleteAsWritten`, `OrionPollers.OrionPollerList.SwitchAsWritten` | `OrionPollers.Target`, `OrionPollers.OrionPollerList.Delete`, `OrionPollers.OrionPollerList.Switch` |
| solarwinds/list.py:29-32 | the loop variable `item` replaces the key, so each item's name is compared with the item itself | a listed item named "a", key "a": KeyError | the item named "a" | not executed | `BaseLists.LegacySubscriptAsWritten`, `BaseLists.LegacyNeverFindsByName` | `BaseLists.Subscript`, `BaseLists.LegacyAgreesElsewhere` |
| pysolarwinds/entities/orion/pollers.py:204-208 | `enable_all` calls `disable()` on each disabled poller | one disabled poller: it stays disabled and nothing is sent | each disabled poller enabled | not executed | `Pollers.PollerList.EnableAllAsWritten` | `Pollers.PollerList.EnableAll` |
| pysolarwinds/endpoints/orion/pollers.py:157-161 | `enable_all` calls `disable()` on each disabled poller | one disabled poller: it stays disabled, nothing is sent, and True is answered | each disabled poller enabled | not executed | `OrionPollers.OrionPollerList.EnableAllAsWritten` | `OrionPollers.OrionPollerList.EnableAll` |
| pysolarwinds/models/orion/node_settings.py:218-219 | `update` deletes the old setting only if `add` answers something truthy, and `add` answers None | a stored setting whose value differs from the node's: `save` adds a new row, keeps the old one, and the next `save` finds the old one again and adds another | replace the old setting: add the new one, then delete the old | not executed | `OrionNodeSettings.NodeSettings.UpdateAsWritten`, `OrionNodeSettings.StaleSettingAddedAgain` | `OrionNodeSettings.NodeSettings.Update`, `OrionNodeSettings.IntendedStepSettles` |
| pysolarwinds/models/node.py:40 | `create` stores the IP under the key "IPAddres" | `create(ip="10.0.0.1")`: the payload's "IPAddress" stays the default and "IPAddres" is "10.0.0.1" | the IP under "IPAddress" | not executed | `ModelNode.CreatePropsAsWritten`, `ModelNode.MisspeltIpKey` | `ModelNode.CreateProps`, `ModelNode.CreatePropsMeaning` |
| pysolarwinds/models/node.py:52-56 | `exists` calls `_get_uri`, which raises ValueError when nothing matches | a hostname no node has: ValueError | False | not executed | `ModelNode.ExistsAnswerAsWritten`, `ModelNode.MissingNodeRaises` | `ModelNode.ExistsAnswer`, `ModelNode.Exists` |
| pysolarwinds/models/node.py:71-73 | `update` writes through the undefined global `swis` | any non-empty `properties`: NameError before anything is written | write through `self.swis` | not executed | `ModelNode.UpdateOutcomeAsWritten`, `ModelNode.UpdateNeverWrites` | `ModelNode.UpdateNode` |
| solarwinds/endpoints/orion/node.py:139-145 | `now` is bound only when `start` is None | `unmanage(start=s)` with no end: UnboundLocalError | the window ends a day after now | not executed | `LegacyNode.UnmanageWindowAsWritten`, `LegacyNode.WindowAsWrittenFails`, `LegacyNode.StartWithoutEnd` | `LegacyNode.UnmanageWindow`, `LegacyNode.OrionNode.Unmanage` |
| solarwinds/endpoints/orion/node.py:106 | `self.node_id or self._get_id()` takes the answer of `_get_id`, which stores the id and returns None | node id 0, which `_get_id` confirms: pollers bound to "N:None" | the pollers bound to the node's id, "N:0" | not executed | `LegacyNode.PollerNodeIdAsWritten`, `LegacyNode.ForgottenNodeId` | `LegacyNode.PollerNodeId`, `LegacyNode.OrionNode.EnablePollers` |
| solarwinds/endpoints/orion/node.py:72-75 | the node stores `_extra_swargs`, but the base's `_build_swargs` reads `_get_extra_swargs()`, which returns {} (solarwinds/endpoint.py:296, 320-322) | any node: the patch has neither "status" nor "objectsubtype" | status 1 and the upper-cased polling method sent | not executed | `LegacyNode.AsWrittenConfig`, `LegacyNode.ExtraSwargsUnused` | `LegacyNode.NodeConfig`, `LegacyNode.Initialize` |
| pysolarwinds/endpoints/orion/interface.py:48-50 | `mtu` returns `int(self.mtu)`, which reads itself | any interface: RecursionError | `int(self._mtu)` | not executed | `LegacyInterfaces.MtuAsWritten`, `LegacyInterfaces.MtuNeverAnswers` | `LegacyInterfaces.MtuOf` |
| pysolarwinds/entities/orion/interfaces.py:616-618 | `monitor` hands `add` plain records, and `add` reads `.data` of each | `monitor(["Gi0/1"])` when "Gi0/1" is discovered but not monitored: AttributeError, nothing added | the discovered interfaces added | not executed | `Interfaces.MonitorAddAsWritten`, `Interfaces.MonitorNeverAdds` | `Interfaces.InterfaceList.MonitorNamed` |
| pysolarwinds/endpoints/orion/interfaces.py:468-482 | `discover` calls `self._resolve_endpoint_attrs()`, which the list does not define, and reads `swis.hostname`, which the client does not define | any node polled by SNMP: AttributeError | discovery invoked and its records kept | not executed | `OrionInterfaces.InterfaceList.DiscoverAsWritten` | `OrionInterfaces.InterfaceList.Discover` |
| pysolarwinds/endpoints/orion/interface.py:174-197 | `discover` calls `self._resolve_endpoint_attrs()`, which the list does not define | an existing node polled by SNMP: AttributeError | discovery invoked and its records kept | not executed | `LegacyInterfaces.InterfaceList.DiscoverAsWritten` | `LegacyInterfaces.InterfaceList.Discover` |
| pysolarwinds/endpoints/orion/credential.py:20-202 | each credential kind keeps the client in `self.api`, but the base's `__init__` queries `self.swis` | `OrionSNMPv2Credential(api, name="c")`: AttributeError | the credential built, and looked up through its client | not executed | `Credentials.ConstructAsWritten` | `Credentials.NewCredential` |
| pysolarwinds/endpoints/orion/credentials/userpass.py:17-23 | `super().__init__()` omits the required `swis` argument | any arguments: TypeError | the base built with the client | not executed | `Credentials.UserPassConstructAsWritten` | `Credentials.NewUserPassCredential.constructor` |
| pysolarwinds/endpoints/orion/credentials/userpass.py:33-46 | `create` uses `self.endpoint` and `save` uses `exists`, neither of which the class has | a valid credential: `create` and `save` raise AttributeError | the create verb invoked and its answer kept as the id; `save` creating or updating | not executed | `Credentials.NewUserPassCredential.CreateAsWritten`, `Credentials.NewUserPassCredential.SaveAsWritten` | `Credentials.NewUserPassCredential.Create`, `Credentials.NewUserPassCredential.Save` |
| pysolarwinds/endpoints/__init__.py:527-536 | after sending both parts, `save` re-reads the custom properties last, and `_get_swdata` replaces the whole cache | a `save` that changes a property and a custom property: the cached properties become None, and the next diff of a property raises AttributeError | each re-read refreshing only its part of the cache | not executed | `Endpoints.CacheAfterPush`, `Endpoints.SaveBothLosesProperties` | `Endpoints.MergedCacheAfterPush`, `Endpoints.MergedPushKeepsProperties` |
| solarwinds/endpoint.py:469-485 | `update` re-reads each part it sent with `_get_swdata(refresh=True, data=...)`, which replaces the whole cache (solarwinds/endpoint.py:101-119) | an `update` that changes a custom property: the cached properties become None, and the next `update` of the object raises AttributeError in `_diff_properties` (solarwinds/endpoint.py:327) | each re-read refreshing only its part of the cache | not executed | `LegacyEndpoints.CacheAfterPush`, `LegacyEndpoints.UpdateLosesProperties` | `LegacyEndpoints.MergedCacheAfterPush`, `LegacyEndpoints.MergedUpdateKeepsProperties` |
| pysolarwinds/endpoints/__init__.py:615-620 | `save(updates={})` fills the one default dict shared by every call | two argument-less saves, the caption changing from "a" to "b" between them: the second sends "a" again | a fresh payload each call, as pysolarwinds/endpoint.py:638-643 builds | not executed | `Endpoints.SharedDefaultSave`, `Endpoints.StaleSaveAfterChange`, `Endpoints.SharedDefaultResends` | `Endpoints.NewEndpoint.Save` |
