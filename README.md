# amigen elaboration engine in Dafny

amigen is a layer over the nMigen hardware description library. A design
is a tree of *elements*. Each element declares clock domains, statements
and child elements in two phases, `create` and `finalize`. The
elaboration engine (`amigen.py`) walks the element tree and produces one
backend module per element. While it walks, it:

- gives every element a *context*: its position in the tree, used for
  lookups by class or key and for the element's path;
- keeps a table mapping domain names to clock domains, which children
  inherit and can re-map with `DomainMapper`;
- runs the hooks that constructors registered with `with_context`, and
  the class-level hooks from `add_class_context_hook`;
- names anonymous children `Cls#0`, `Cls#1`, ...;
- gives each declared domain a unique physical name,
  `_internal_<path>_<name>`;
- renames the domains that statements are driven by to those physical
  names;
- elaborates children declared during `finalize` under an *invisible*
  copy of the parent's context, so a lookup from them skips the parent.

`a.py` is the earlier prototype of the same idea. It has no domains and
no visibility, and it has an `Ila` element that collects probes from its
descendants.

The model is written in Dafny:

- Python dictionaries are insertion-ordered sequences of pairs. The
  order matters: the child's domain table depends on the order of the
  parent's table.
- A context is a sequence of frames, with the element's own frame first.
- An element's `create` and `finalize` bodies are scripts of the actions
  the engine can observe.
- The process-wide `GlobalElaborationContext` is a class, `Tracker`. It
  records the hook runs and phase starts it sees as a trace, so that
  ordering and context properties can be stated.
- The walk is a set of methods over that class and over a
  `ModuleWrapper` class. They are proved against pure specification
  functions (`Scripts.Run`, `Outcomes.Elaborated`) whose properties are
  proved as lemmas.

Modules and files:

| Module | File | What it holds |
|---|---|---|
| Wrappers | `wrappers.dfy` | `Option` and `Result` |
| Dicts | `dicts.dfy` | insertion-ordered dictionaries |
| Keys | `keys.dfy` | `Key`, `GlobalKey` |
| Contexts | `contexts.dfy` | `ElaborationContext`: lookup, path, invisible copy |
| Elements | `elements.dfy` | elements, children, actions, errors |
| Registry | `registry.dfy` | `SubmoduleBuilder` |
| Domains | `domains.dfy` | physical domain names, the child's domain table, `DomainMapper`, `ClockSignal`/`ResetSignal`, driver renaming |
| Scripts | `scripts.dfy` | the effect of `create`/`finalize` bodies; `ModuleWrapper` with `DomainSetBuilder` |
| Tracking | `tracker.dfy` | `GlobalElaborationContext`, `ElementMeta`, hooks |
| Outcomes | `outcomes.dfy` | what `element_to_module_inner` yields, as functions, and the module it builds |
| Elaboration | `elaboration.dfy` | `element_to_module` |
| Scenarios | `scenarios.dfy` | the situations of the repository's tests |
| Prototype | `prototype.dfy` | `a.py` |

Two behaviours of the code that are easy to misread:

- **Hook order.** amigen.py:165-170 runs an element's instance hooks
  (registered with `with_context`) before its class hooks (registered
  with `add_class_context_hook`). `Tracking.HookEvents` and
  `Elaboration.Walk` use this order.
- **Duplicate-domain check.** The check at amigen.py:118 looks for the
  prefixed physical name among the table's keys. The entry is then
  stored under the unprefixed name (line 132). So declaring the same
  domain twice in one element passes the duplicate check at
  amigen.py:118, as `Domains.RedeclarationPassesCheck` states. What the
  code does after that check is not modelled for this case. At the top
  converted for nMigen, the first declaration sets `domain.local`
  (line 126), so a second declaration of the same `ClockDomain` object
  fails the assertion at line 121. In every case, the backend receives a
  second domain with the same physical name (line 123), and what it does
  with that is outside the model.

Two notes on the rest of the model:

- `_copy_invisible` shares the parent's `domains` dictionary rather than
  copying it. This cannot be observed: a child's table is always a new
  dictionary built from it (amigen.py:320-331). So the model keeps no
  shared reference.
- In `a.py`, every context frame is visible and `isinstance(x, Ila)`
  tests for the class `Ila` itself.

## Model

| member | source | states |
|---|---|---|
| Keys.KeyEquals | amigen.py:53-57 | `Key.__eq__` is true exactly when the other object is a key with an equal value; it is false for `None`; the prototype's `Key` in `a.py` behaves the same |
| Keys.ElementKeyEqualsIsEquality | amigen.py:262 | the test `element.key == key` (through `Key.__eq__` when the element has a key, identity for `None`) is equality of optional keys |
| Keys.GlobalKeyAt | amigen.py:61-62 | the key made when the counter stands at `n` holds the number `n` |
| Keys.GlobalKeyCounter.constructor | amigen.py:60 | the class counter starts at 0 and no key has been issued |
| Keys.GlobalKeyCounter.NewGlobalKey | amigen.py:59-63 | a new `GlobalKey` takes the counter's value and increments it; the key is not among those issued before |
| Keys.GlobalKeys | amigen.py:59-63 | `count` successive `GlobalKey()` calls from counter `start` hold `start`, `start+1`, ... |
| Keys.GlobalKeysDistinct | amigen.py:59-63 | two different `GlobalKey` objects never compare equal, in the engine and in the prototype |
| Contexts.SearchFrom | amigen.py:253-263 | the walk up `parent` from frame `i` returns the first matching ancestor and skips only non-matching ones; `None` exactly when no ancestor matches |
| Contexts.Lookup | amigen.py:253-263 | the result is the nearest strict ancestor that is visible and matches the query, or `None` when there is none |
| Contexts.NearestMatchUnique | amigen.py:253-263 | the nearest-match specification determines the lookup result uniquely |
| Contexts.Find | amigen.py:253-257 | `find(cls)` returns the nearest visible strict ancestor that is an instance of `cls` (subclasses included); `None` exactly when there is none |
| Contexts.FindByKey | amigen.py:259-263 | `find_by_key(key)` returns the nearest visible strict ancestor whose key equals `key`; `None` exactly when there is none |
| Contexts.Path | amigen.py:265-271 | `path()` yields one name per frame, the element's own name first, then its ancestors' |
| Contexts.ScopeNameOfRoot | amigen.py:115 | the reversed, `/`-joined path of the root context is the root's name |
| Contexts.ScopeNameOfChild | amigen.py:115 | a child's reversed, `/`-joined path is the parent's path, `/`, and the child's name |
| Contexts.CopyInvisible | amigen.py:250-251 | the copy has the same element and the same ancestors, and is not visible |
| Contexts.PathOfCopyInvisible | amigen.py:250-251 | the invisible copy has the same path, so names and domain prefixes under it are unchanged |
| Contexts.LookupThroughHidden | amigen.py:250-263 | a lookup from below an invisible copy skips the copied element and finds what a lookup from that element would find |
| Contexts.LookupThroughVisible | amigen.py:253-263 | a lookup from below a visible context finds that element when it matches, and otherwise what a lookup from it would find |
| Dicts.Put | amigen.py:78 | `d[k] = v` overwrites a present key in its position and appends a new one; no other key changes and keys stay distinct |
| Dicts.Get | amigen.py:356 | reading a key finds a value exactly when the key is in the dictionary, and then it is the value of the first entry with that key |
| Dicts.GetOfEntry | amigen.py:81 | in a dictionary without repeated keys, reading an entry's key yields that entry's value |
| Registry.DecimalString | amigen.py:96 | `str(n)` has at least one digit, and exactly one when `n < 10` |
| Registry.DecimalStringInjective | amigen.py:96 | different numbers print differently |
| Registry.AutoNameInjective | amigen.py:96 | `f"{cls}#{n}"` names differ for different `n` |
| Registry.FirstFreeName | amigen.py:93-97 | the loop stops at the first `cls#n` not in the table, after every `cls#k` with `k < n` was found taken |
| Registry.SmallestFreeIsUnique | amigen.py:93-97 | only one number is the first free one, so the name an anonymous child gets is determined by the table |
| Registry.SubmoduleBuilder.constructor | amigen.py:69-70 | a new builder has an empty table |
| Registry.SubmoduleBuilder.Set | amigen.py:72-84 | a taken name raises the duplicate error; an element whose own name disagrees with the slot raises the mismatch error; otherwise the entry is appended. The table never has a repeated name or a disagreeing element. `__setitem__` is the same operation |
| Registry.SubmoduleBuilder.Add | amigen.py:89-100 | a named element goes under its own name, with the duplicate error when that name is taken; anything else is appended under the first free `Cls#n` |
| Registry.SubmoduleBuilder.Get | amigen.py:80-87 | reading a slot succeeds exactly when the name is in the table |
| Registry.TwoAnonymousChildren | tests/class_hooks.py:11-13 | two anonymous children of one class are stored as `A#0` and then `A#1` |
| Domains.PhysicalNamesOfOneElementDiffer | amigen.py:115-116 | different domain names declared in one element get different physical names |
| Domains.PhysicalNamesOfSiblingsDiffer | amigen.py:115-116 | the same domain name declared in two differently named siblings gets different physical names |
| Domains.RedeclarationPassesCheck | amigen.py:118-132 | after a domain `n` is declared, its physical name is still not a key of the table, so declaring `n` again passes the check |
| Domains.BridgesFor | amigen.py:125-130 | when converted for the backend, the top element's domain gets a clock bridge, plus a reset bridge when it has a reset |
| Domains.LocalNamesFor | amigen.py:321-324 | the inverse of `domain_map` lists exactly the child names mapped to a given parent name |
| Domains.InvertDomainMap | amigen.py:321-324 | the inverted map lists, for each parent name, exactly the child names mapped to it, in `domain_map` order |
| Domains.BindTargets | amigen.py:328-329 | the loop binds every child name mapped to a parent domain to that domain, in order, as `PutAll` says |
| Domains.PutAll | amigen.py:328-329 | every listed name is bound to the domain; all other names are unchanged |
| Domains.ChildTableIsLastBinding | amigen.py:320-331 | the child's table binds each name to the domain of the last parent entry that binds it, by mapping or by pass-through |
| Domains.LastBindingOfSoleBinder | amigen.py:326-331 | when only one parent entry binds a name, the child gets that entry's domain |
| Domains.LastBindingOfNoBinder | amigen.py:326-331 | a name that no parent entry binds is not in the child's table |
| Domains.RedirectedNameGetsParentDomain | amigen.py:326-329 | a child name mapped to a parent domain gets that domain, unless the name is also a parent domain of its own that is passed through later |
| Domains.RedirectTargetIsNotPassedThrough | amigen.py:326-331 | a parent domain that is a mapping target is not passed through under its own name, unless the child maps that name too |
| Domains.UnmappedDomainPassesThrough | amigen.py:330-331 | a parent domain that is not a mapping target, and whose name is not mapped, passes through unchanged |
| Domains.EmptyMapCopiesTable | amigen.py:320-331 | with an empty `domain_map`, the child's table is a copy of the parent's |
| Domains.ChildDomains | amigen.py:320-331 | the loops build exactly the child table the lemmas above describe |
| Domains.RenameMap | amigen.py:337 | the renaming given to a backend-native child maps each domain name in the table to its physical name, and nothing else |
| Domains.MapperTable | amigen.py:221-224 | `DomainMapper("x")` maps `sync` to `x` only; a dictionary argument is the map itself |
| Domains.UpdateAll | amigen.py:228 | `dict.update`: names of the other dictionary take its values, all other names are unchanged |
| Domains.ApplyDomainMapper | amigen.py:226-229 | applying a mapper changes only the element's `domain_map`, and only for the mapper's names |
| Domains.ClockSignal | amigen.py:29-36 | fails inside a constructor; fails for a name not in the current table; otherwise returns that table's domain |
| Domains.ResetSignal | amigen.py:38-47 | as `ClockSignal`, and also fails for a reset-less domain |
| Domains.ResolveDrivers | amigen.py:350-357 | succeeds exactly when every driven signal's domain is in the table; then each driver becomes its physical name, in order, and combinational statements stay so; otherwise the error names the first signal with an unknown domain and the element's path |
| Scripts.Declare | amigen.py:110-134 | a non-`ClockDomain` raises the type error; a physical name already in the table raises the name error; otherwise the name is bound to a new domain `_internal_<path>_<name>`, which is added to the module, with bridges only for the top element when converted for the backend |
| Scripts.DeclareAs | amigen.py:136-141 | `m.domains.x = d` fails when `d.name != x`, and is `m.domains += d` otherwise |
| Scripts.DriveFrom | amigen.py:143-147 | driving a signal fails exactly when it is already driven from another domain, with the conflict error naming both domains; on success only the drivers change, the signal is driven from the given domain and every other signal keeps its domain |
| Scripts.RunExtendsStorage | amigen.py:72-100 | running a body only appends to the submodule table, and every new entry was named in the body |
| Scripts.RunKeepsDomains | amigen.py:123 | running a body only adds domains to the module |
| Scripts.RunDrivesConsistently | amigen.py:351-357 | after a body runs without error, every signal keeps the domain it was driven from before, and every statement of the body drives its signal from the domain it ends up with |
| Scripts.RunKeepsDrivers | amigen.py:351-357 | a body that runs without error never changes the domain of a signal already driven |
| Scripts.RunDrivesAt | amigen.py:351-357 | after a body that runs without error, each of its statements drives its signal from the domain the signal ends up with |
| Scripts.RunLeavesTableEmpty | amigen.py:312 | after a body runs, the domain table is empty exactly when it was empty before and the body declared no domain |
| Scripts.WithDefaultSync | amigen.py:311-313 | the top element with an empty table gets exactly one domain, `sync`; every other element is unchanged |
| Scripts.TopGetsDefaultSync | amigen.py:311-313 | the default `sync` is added exactly when the top element's `create` declares no domain |
| Scripts.ModuleWrapper.constructor | amigen.py:143-147 | a new module has an empty submodule table, no domains, no statements and the inherited domain table |
| Scripts.ModuleWrapper.AddDomain | amigen.py:110-134 | `m.domains += d` changes the module's state as `Declare` says, and on error changes nothing |
| Scripts.ModuleWrapper.SetDomain | amigen.py:136-141 | `m.domains.x = d` changes the state as `DeclareAs` says, and on error changes nothing |
| Scripts.ModuleWrapper.Drive | amigen.py:143-147 | `m.d.<d> += ...` changes the state as `DriveFrom` says: the first statement records the signal's domain, a later one from the same domain changes nothing, one from another domain raises the driver-driver conflict and changes nothing |
| Scripts.ModuleWrapper.AddSubmodule | amigen.py:89-100 | `m.submodules += c` changes the submodule table as `__iadd__` does |
| Scripts.ModuleWrapper.SetSubmodule | amigen.py:72-84 | `m.submodules.x = c` changes the submodule table as `__setattr__` does |
| Scripts.ModuleWrapper.Attach | amigen.py:333-339 | `_add_submodule` appends one entry to the module's children and changes nothing else |
| Tracking.HookEvents | amigen.py:165-170 | each hook runs once, in order, with the element's context |
| Tracking.WithinChildIsBelow | amigen.py:288-300 | an event inside a child's elaboration happens below the parent's context, whether the child was added in `create` or in `finalize` |
| Tracking.Registered | amigen.py:280-281 | a constructor body registers at most one hook per step |
| Tracking.Tracker.constructor | amigen.py:273-275 | no current context, no element under construction, no hooks |
| Tracking.Tracker.WithContext | amigen.py:277-283 | inside a constructor the hook is appended to that element's list; otherwise it runs now with the current context; nothing else changes |
| Tracking.Tracker.AddClassContextHook | amigen.py:203-208 | the hook is appended to the class's list, which is created when missing |
| Tracking.Tracker.Construct | amigen.py:149-180 | a new element gets a fresh identity, the given key and name, an empty `domain_map` and the hooks its body registered; the element under construction is restored on success and left pointing at the failed one when the body raises |
| Elaboration.RunHooks | amigen.py:165-170 | the hooks run in order with the element's context, and nothing else changes |
| Elaboration.RunAction | amigen.py:72-141 | one action against the module changes its state as `Scripts.Step` says, or fails with its error; a hook it runs gets the element's own context |
| Elaboration.RunActions | amigen.py:307 | running a body changes the module's state as `Scripts.Run` says, or fails with its error; every event happens in the element's own context |
| Elaboration.RenameDrivers | amigen.py:350-357 | the drivers become what `ResolveDrivers` gives, or the renaming fails with its error |
| Elaboration.AddSubmodule | amigen.py:315-341 | the new module state and `done_submodules` are exactly what `Outcomes.AttachChild` gives for the context's own domain table: an element child, named after its slot when it has none, is elaborated with the table its `domain_map` makes of that table and its module attached; a backend-native child is marked done, with the `TypeError` when it cannot be hashed, and attached under the domain renaming; anything else fails with the unsupported error; every event happens below the given context |
| Elaboration.FirstPass | amigen.py:343-344 | the loop leaves exactly the error, children, elaborated elements and `done_submodules` that `Outcomes.Children` gives for the first pass over the table, under the element's visible context |
| Elaboration.SecondPassEntry | amigen.py:359-362 | one entry of the second pass is exactly `Outcomes.Entry`: a child with an `m` is skipped; an unhashable child raises the `TypeError` of the `done_submodules` test; a child in `done_submodules` is skipped; any other is attached under the invisible copy of the context |
| Elaboration.SecondPass | amigen.py:359-362 | the loop leaves exactly the error, children and elaborated elements that `Outcomes.Children` gives for the second pass, under the invisible copy of the context |
| Elaboration.OpenElement | amigen.py:300-313 | runs the hooks, starts `create`, and gives the state of the create phase with the default `sync` domain |
| Elaboration.CreateStage | amigen.py:304-344 | the create phase and the first pass: the error of `create` with nothing elaborated, or the state `create` leaves with the default `sync` domain and the first pass as `Outcomes.Children` gives it |
| Elaboration.FinalizeBody | amigen.py:347-357 | runs `finalize` and renames the drivers: the error of either step, or the state `Scripts.Run` gives with the drivers `ResolveDrivers` gives |
| Elaboration.FinalizeStage | amigen.py:347-362 | the result and elaborated elements are exactly what `Outcomes.Finish` gives; every event after `finalize` starts happens in the element's context or below its invisible copy |
| Elaboration.Body | amigen.py:300-364 | the events follow the element's trace shape, and the result and elaborated elements are exactly what `Outcomes.Stages` gives |
| Elaboration.FinishStage | amigen.py:346-364 | announces `finalize` and freezes the module; the trace keeps the element's shape and the result is exactly what `Outcomes.Finish` gives |
| Elaboration.Walk | amigen.py:286-364 | `context_for` makes the element's context current and restores the previous one however the elaboration ends. The trace is: the hooks (instance hooks, then class hooks) with the new context, then `create`, then everything inside the element; after `finalize` starts, only the element's own context or below its invisible copy. The result, success or which error, is exactly `Outcomes.Elaborated` |
| Elaboration.TopModuleHasSync | amigen.py:311-313 | the top module of an element whose `create` declares no domain has the domain `_internal_<name>_sync` |
| Elaboration.ElementToModule | amigen.py:298-369 | elaborating from the root, named `top_name` when it has no name, gives the root's trace and exactly the result `Outcomes.Elaborated` gives, which is the outcome `Outcomes.Outcome` describes, with the default `sync` domain |
| Elaboration.Elaborate | amigen.py:216-218 | `elaborate` gives exactly what `Outcomes.Elaborated` gives for the element as the top element, named after its class and converted for the backend |
| Outcomes.WithName | amigen.py:317-318 | an element without a name gets the given name; a named one keeps its own; nothing else changes. amigen.py:366-367 does the same to the top element |
| Outcomes.AttachChild | amigen.py:315-341 | attaching a child never forgets an element that has an `m`, and an element child has one afterwards |
| Outcomes.Children | amigen.py:343-344 | a loop over the submodule table never forgets an element that has an `m` |
| Outcomes.Elaborated | amigen.py:298-300 | elaborating an element gives it an `m` and forgets none |
| Outcomes.CreatedEntries | amigen.py:307 | every child in the table after `create` was named by `create` |
| Outcomes.FinalizedEntries | amigen.py:347 | after `finalize` the submodule table starts with the one `create` left, and every child in it was named by one of the two bodies |
| Outcomes.AttachChildShape | amigen.py:333-341 | an unsupported child raises the unsupported error; an unhashable backend-native child raises the hashing error; on success exactly one child is appended under its slot, as its kind requires; only a hashable backend-native child enters `done_submodules`; an element child has an `m` |
| Outcomes.AttachedElementOutcome | amigen.py:315-332 | an attached element child's module is the outcome of elaborating it under its slot name, below the given context, with the table its `domain_map` makes of the parent's |
| Outcomes.FirstLoopShape | amigen.py:343-344 | the first pass, when it ends without error, attaches every entry in table order; afterwards every entry has an `m` or is a backend-native child in `done_submodules` |
| Outcomes.SecondLoopShape | amigen.py:359-362 | the second pass, when it ends without error, keeps the first pass's children and appends exactly the entries added by `finalize` that it picks, in table order; every entry it skips had an `m` or is a backend-native module stored under an earlier slot |
| Outcomes.SecondLoopHashes | amigen.py:361 | a second pass that ends without error met no unhashable child without an `m` |
| Outcomes.FinishOutcome | amigen.py:347-364 | when the first pass attached everything, a successful finish is the module built from `finalize`'s domains and bridges, the renamed drivers and the children of the two passes |
| Outcomes.ElaborateOutcome | amigen.py:298-364 | elaborating an element fails with `create`'s error when `create` raises, and a success is the module its two bodies and two passes build |
| Outcomes.EmptyBodiesSucceed | amigen.py:298-364 | an element whose `create` and `finalize` do nothing is elaborated without error into a module with no children and no drivers, and only it gains an `m` |
| Outcomes.UnhashableFinalizeChildRaises | amigen.py:359-362 | an element whose `finalize` stores one unhashable non-element object fails with the hashing `TypeError`, not the unsupported-submodule error |
| Outcomes.StoresOneChild | amigen.py:89-100 | a body that stores one non-element object in an empty table puts it in the first free `Cls#n` slot |
| Outcomes.FinishUnhashable | amigen.py:347-362 | when `finalize` stores one unhashable object in an empty table, the finish fails with the hashing error |
| Outcomes.DriverConflictRaises | amigen.py:307 | an element whose `create` drives one signal from two different domains fails with the driver-driver conflict |
| Outcomes.ConflictingDrives | amigen.py:307 | two statements driving one signal from different domains make the body fail with the conflict naming both domains |
| Outcomes.OutcomeDomains | amigen.py:347-364 | a module the outcome describes has exactly the domains `finalize` left |
| Scenarios.ClockDomainNames | tests/clock_domains.py:47-48 | the top element's domains `a` and `b` are named `_internal_top_a` and `_internal_top_b`, and `C`'s `a` is `_internal_top/B#0/C#0_a` |
| Scenarios.TopCreateRuns | tests/clock_domains.py:8-20 | `A`'s `create` runs without error and gives the table `a`, `b`, the two drivers and the mapped child |
| Scenarios.TopDrivers | tests/clock_domains.py:50-51 | the signals driven by `a` and `b` end up driven by `_internal_top_a` and `_internal_top_b` |
| Scenarios.TableOfB | tests/clock_domains.py:20 | the child table that `DomainMapper("a")` makes of the top's table `a`, `b` binds `sync` to the top's `a` and keeps `b` |
| Scenarios.CDeclares | tests/clock_domains.py:36 | `C`'s own `a` shadows the inherited `a` |
| Scenarios.CReads | tests/clock_domains.py:39-41 | in `C`, the clock signals of `a`, `b` and `sync` come from `C`'s own `a`, the top's `b` and the top's `a` |
| Scenarios.CDrivers | tests/clock_domains.py:57 | `C`'s `sync` statement ends up driven by `_internal_top_a` |
| Scenarios.CCreateRuns | tests/clock_domains.py:30-41 | `C`'s whole `create` runs without error to the expected state |
| Scenarios.SignalsInC | tests/clock_domains.py:56-62 | `C`'s `create`, run in the context `top/B#0/C#0` with the table `B` passes on, reads `a` as `C`'s own domain and `b`, `sync` as the top's, and its driver resolves to `_internal_top_a`; the context and table are written out, not produced by the walk |
| Scenarios.ParentInvisibleAfterFinalize | tests/parent_invisible_after_finalize.py:11-23 | `B`, added during `create`, finds `A`; `C`, added during `finalize`, does not |
| Scenarios.ClassHookPaths | tests/class_hooks.py:42-46 | the contexts of two `A` children of `top` stored as `A#0` and `A#1` have the paths `top/A#0` and `top/A#1` |
| Prototype.RunInit | a.py:33 | the prototype's constructor body fails with a missing `key` exactly when it reads `self.key` before assigning it, on an object without a key |
| Prototype.Construct | a.py:31-35 | construction fails exactly when the body reads `key` before assigning it; otherwise the object's key is the keyword argument, whatever the body assigned |
| Prototype.AssignedKeyIsOverwritten | a.py:33-34 | a key the body assigns is replaced by the keyword argument |
| Prototype.DirectElaborate | a.py:47-48 | `elaborate` on an element always fails |
| Prototype.ProtoSearchFrom | a.py:91-101 | the walk up `parent` returns the first matching ancestor, with no visibility test |
| Prototype.ProtoLookup | a.py:91-101 | the result is the nearest strict ancestor that matches, or `None` when none does |
| Prototype.ProtoFind | a.py:91-95 | `find(cls)` returns the nearest strict ancestor that is an instance of `cls` |
| Prototype.ProtoFindByKey | a.py:97-101 | `find_by_key` returns the nearest strict ancestor with that key |
| Prototype.ShowAll | a.py:86-89 | the prototype's frames are the engine's frames, all visible |
| Prototype.ProtoLookupIsLookup | a.py:91-101 | the prototype's lookup is the engine's lookup with every frame visible |
| Prototype.ProtoFindAgreesWhenVisible | a.py:91-101 | when every frame is visible, the prototype's `find` and `find_by_key` agree with the engine's |
| Prototype.WithProbeEffects | a.py:68 | the probe is appended to that `Ila`'s list; every other list, the current context, the signal counter and the trace are unchanged |
| Prototype.ForwardedProbe | a.py:64-66 | `Ila.add_probe(v)` on a non-`Ila` value succeeds exactly when an `Ila` ancestor exists, and appends `v` to the nearest one |
| Prototype.ProbeOnIla | a.py:67-68 | `add_probe` on an `Ila` appends the given signal to its own list |
| Prototype.ProbeWithSignalOnNonIla | a.py:67-68 | `add_probe(x, s)` with a signal, on something that is not an `Ila`, fails on the missing `probes` attribute |
| Prototype.ProbeStatementsShape | a.py:59-62 | `finalize` adds one shift statement per probe, in order, the `i`-th with storage signal `next + i` |
| Prototype.ProbeStoragesFresh | a.py:60-62 | the storage signals of different probes differ and are all new |
| Prototype.StepEffects | a.py:72-79 | one action of a body appends the child or the statement it adds and nothing else to the module; the converted modules, the current context, the signal counter and the trace are unchanged |
| Prototype.ScriptEffects | a.py:114 | running `create` appends exactly the children and statements it adds and keeps the converted modules; the current context, the signal counter and the trace are unchanged, whether it succeeds or not |
| Prototype.ScriptStops | a.py:114 | once a body fails, the rest of it does not run |
| Prototype.CreateEffects | a.py:56-57 | after `create` the module's children are exactly the ones the element adds (an `Ila`'s own child) and nothing is converted yet |
| Prototype.FinalizeEffects | a.py:59-62 | `finalize` keeps the converted modules and the current context; an `Ila`'s adds exactly its probe statements, a plain element's adds its own children and statements |
| Prototype.ConvertAllLength | a.py:116-117 | each child added in `create` yields one converted module |
| Prototype.ConvertShape | a.py:108-120 | one module is converted per child added in `create`; children added in `finalize` stay unconverted |
| Prototype.ConvertAllStops | a.py:116-117 | once a child fails, the later children are not converted |
| Prototype.ConvertOrder | a.py:108-120 | the phases run in depth-first order: each element's `create` starts, then its children's, then its own `finalize` |
| Prototype.PhasesOrder | a.py:112-120 | with the element's context set, its children are converted in order and then its `finalize` starts |
| Prototype.ConvertAllOrder | a.py:116-117 | the children are converted in order |
| Prototype.ConvertAllStepOrder | a.py:116-117 | converting one more child adds exactly that child's depth-first events |
| Prototype.LastContext | a.py:109-110 | the context last set during an element's conversion lies strictly below its parent's: it is longer and ends with the parent's context |
| Prototype.ConvertLeavesContext | a.py:109-110 | after a conversion, the current context is the one set last, and is never restored |
| Prototype.PhasesLeaveContext | a.py:112-120 | after an element's phases, the current context is its own when it has no children, and otherwise the one its last child's conversion set last |
| Prototype.ConvertAllLeavesContext | a.py:116-117 | after the children, the current context is the last child's last one |
| Prototype.FinalizeSeesDescendantContext | a.py:110-119 | for an element with children, the context current when `finalize` runs is a different, deeper context that ends with the element's own: that of a descendant |
| Prototype.TestProbesRouted | a.py:72-77 | in `Test`, `Ila.add_probe(a)` reaches the inner `Ila` and the keyed lookup sends `b` to the outer `Ila` |
| Prototype.ProtoRuntime.constructor | a.py:104-105 | no current context, no probes, no trace |
| Prototype.ProtoRuntime.AddProbe | a.py:64-68 | changes the state as `AddProbeResult` says, and on error changes nothing |
| Prototype.ProtoRuntime.NewSignal | a.py:61 | `Signal(10)` takes the next signal number |
| Prototype.ProtoRuntime.Step | a.py:72-79 | one action of a body changes the state as `StepResult` says |
| Prototype.ProtoRuntime.RunScript | a.py:114 | the loop over a body's actions changes the state as `ScriptResult` says |
| Prototype.ProtoRuntime.IlaFinalize | a.py:59-62 | the loop over the probes adds the probe statements and takes one new signal per probe |
| Prototype.ProtoRuntime.CreateStage | a.py:112-114 | running `create` changes the state as `CreatePhase` says |
| Prototype.ProtoRuntime.ConvertChildren | a.py:116-117 | the loop over the children converts them in order and stops at the first failure, as `ConvertAll` says |
| Prototype.ProtoRuntime.FinalizeStage | a.py:119 | running `finalize` changes the state as `FinalizePhase` says |
| Prototype.ProtoRuntime.RunPhases | a.py:112-120 | `create`, the children and `finalize` in turn give exactly the outcome and state that `Phases` describes |
| Prototype.ProtoRuntime.ElementToModule | a.py:108-120 | the recursive conversion gives exactly the outcome and state that `Convert` describes |

## Left out

- Hashing is modelled as a flag on each stored non-element object:
  whether Python can hash it. Elements are always hashable. The
  `TypeError` message is reduced to the object's class name.
- `ModuleWrapper` inherits the backend `Module`'s driver-driver check
  (amigen.py:143); it is modelled for statements that drive one signal
  each, the only statements the model has.
- The backend (nMigen) is not modelled. This covers `Module`, `Signal`,
  `Cat`, `Fragment`, `DomainRenamer`, `_add_domain`, `_add_submodule` and
  Verilog output. A domain is its physical name and whether it has a
  reset. A statement is the signal it drives and the name of its domain.
  A backend-native child is recorded with the renaming applied to it.
- The `clk_edge`, `async_reset` and `local` attributes of a
  `ClockDomain` are not modelled. Neither is the `assert domain.local ==
  False` at amigen.py:121, nor setting `local` at amigen.py:126.
- The control-flow depth asserts (amigen.py:309, amigen.py:348) are left
  out. They test backend state the model does not have.
- The `platform` argument is not modelled. The engine only passes it
  along.
- The warning that `Element.elaborate` prints (amigen.py:217) is output
  only.
- Metaprogramming is not modelled: `del Module.__init_subclass__`,
  `functools.wraps` and the binding of `patched_create`. The patched
  `create` is modelled as its effect: hooks, then the body.
- Class hooks are looked up by the element's exact class name. Python's
  attribute lookup also gives a subclass its base classes' hooks; that
  is not modelled.
- An element body is a script of engine-visible actions. Arbitrary
  Python in a body is not modelled. This includes writing attributes of
  other elements and reading `m.submodules` after the walk.
- `submodule.name = name` (amigen.py:317-318) renames the element object
  in place. An element object stored in a table again after it was
  elaborated, or stored under two slots, is not modelled: such a child
  carries its new name into the second `__setattr__` and can raise the
  name-mismatch error there. The model keeps each stored child's value
  as it was stored.
- Object identity is modelled by distinct numbers, and `hasattr(x, "m")`
  by the set of element numbers whose elaboration started. So only an
  element whose elaboration started counts as having `m`. A raw backend
  object that happens to carry an attribute named `m` is skipped by
  amigen.py:361, but the model attaches it.
- Scenarios: the scenario lemmas check single steps of the walk (a
  child table, a `create` run, a path) on contexts and tables written
  out by hand. No lemma unfolds `Outcomes.Elaborated` over a whole test
  tree.
- Elaboration.Walk: the trace is tied to the element's own context
  (hooks, `create`, `finalize`, and everything below). The exact events
  of each descendant are given by that descendant's own call, not
  repeated in the parent's contract.
- Tracking.Registered: it bounds the number of registered hooks. The
  hooks themselves are given by its definition, which `Construct` uses.
- a.py:122-136 is not modelled: it is the script that builds one
  example tree and prints its Verilog. `Prototype.TestProbesRouted`
  covers the probe routing of that tree.
- In `a.py`, a body that appends to another element's `submodules` is
  not modelled. A body changes its own module and the probe lists.
- Prototype.AppendChild and `Ila.child` hold elements only, so a
  non-element entry in `a.py`'s plain `m.submodules` list is not
  modelled. `element_to_module` converts every entry (a.py:116-117). For
  an nMigen module, a signal, or the `None` of an `Ila` given `child=None`,
  it first makes that object's context the `current_context`
  (a.py:109-110) and then raises AttributeError at `element.m = module`
  or `element.create(context)` (a.py:113-114). Neither that context
  change nor the error is in the model.
- Whether `Cat(probe, storage)` accepts a given probe, including `None`,
  is backend behaviour and is not modelled.
- In `a.py`, the numbering of signals is not checked against
  user-created signals. `ProbeStoragesFresh` only says the probe
  storages are new relative to the counter.
- tests/traced_signal.py, tests/nmigen_integration.py and
  tests/nmigen_modules.py exercise backend tracing and conversion. They
  are not scenarios here. Their engine-level facts (hook contexts, paths,
  the walk) are covered by `Elaboration.Walk` and the `Contexts` lemmas.
