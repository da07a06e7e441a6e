# js_sandbox_patterns, modelled in Dafny

The repository is a set of small JavaScript design-pattern demonstrations.
This project models the four that keep state or compute a value, as they
appear in `appes6.js` (and, for the item store, its duplicate in `app.js`):

- **Observer** (`ObserverPattern`, `observer.dfy`): `EventObserver` holds an
  ordered list of callbacks. `subsribe` appends without deduplication,
  `unsubsribe` replaces the list by a filtered copy without any entry equal to
  the callback, and `fire` calls every entry in list order. Callbacks are a
  type parameter with equality (their identity); `Fire` returns the sequence
  of callbacks it invoked. The methods are spelled `Subscribe`/`Unsubscribe`
  here; the source spells them `subsribe`/`unsubsribe`. The filter is the
  function `Without`, and it is characterised independently: it keeps every
  other entry with its multiplicity (`WithoutMultiset`), in order
  (`WithoutIsSubsequence`), and these two facts determine it
  (`WithoutUnique`).
- **Revealing module** (`RevealingModule`, `item_ctrl.dfy`): `ItemCtrl` keeps
  `_data` (the field `data`); `add` appends, `get(id)` is
  `Array.prototype.find` for the first item with that `id` (`Find`), with
  `undefined` as `None`. `app.js` holds the same code, so it is modelled once;
  the table cites each file where its own lines are meant.
- **Singleton** (`SingletonPattern`, `singleton.dfy`): `getInstance` builds the
  instance `{name: 'Brad'}` on the first call and returns the same object
  afterwards. The instance is a class, so "same" is reference identity.
- **Factory** (`FactoryPattern`, `member_factory.dfy`): `createMember(name,
  type)` selects one of the constructors `SimpleMembership`,
  `StandardMembership` or `SuperMembership` (costs `$5`, `$15`, `$25`) and
  stamps `type` on the record (the field `kind`, because `type` is a Dafny
  keyword). Any other tag leaves `member` undefined, and the assignment
  `member.type = type` then throws; the model returns `Failure(UndefinedMember(tag))`.
  `Define` is the text that `define` logs.

`Wrappers` (`wrappers.dfy`) holds the `Option` and `Result` datatypes.

## Model

| member | source | states |
|---|---|---|
| `ObserverPattern.Without` | appes6.js:140-144 | the filtered list contains no entry equal to the callback, only entries of the input, and is never longer; the lemmas below add multiplicities, order and uniqueness |
| `ObserverPattern.WithoutMultiset` | appes6.js:136-144 | after filtering no entry equals the callback, every other callback keeps its exact number of occurrences, and membership changes for the callback alone |
| `ObserverPattern.WithoutIsSubsequence` | appes6.js:140-144 | the kept entries appear in the original list in the same order |
| `ObserverPattern.WithoutUnique` | appes6.js:136-144 | the only ordered sub-list of the old list holding exactly the other entries is the filter's result, so the two properties above say exactly what `unsubsribe` leaves |
| `ObserverPattern.WithoutAppend` | appes6.js:140-144 | filtering a concatenation is concatenating the filtered parts |
| `ObserverPattern.WithoutAbsent` | appes6.js:137-144 | a callback that is not on the list leaves the list unchanged |
| `ObserverPattern.WithoutIdempotent` | appes6.js:136-144 | unsubscribing twice has the effect of unsubscribing once |
| `ObserverPattern.SubscribeThenUnsubscribe` | appes6.js:131-144 | unsubscribing right after subscribing removes that entry and all earlier ones of the same callback; subscribing a different callback puts it after the filtered rest |
| `ObserverPattern.EventObserver.constructor` | appes6.js:127-129 | a new observer starts with no callbacks |
| `ObserverPattern.EventObserver.Subscribe` | appes6.js:131-134 | the callback is appended at the end, even if already present, so its count grows by one |
| `ObserverPattern.EventObserver.Unsubscribe` | appes6.js:136-146 | the new list is the filtered old list: no entry equals the callback, the others keep count and order, and an unsubscribed callback leaves the list as it was |
| `ObserverPattern.EventObserver.Fire` | appes6.js:148-152 | every entry is invoked once per occurrence, in list order, and the list is not changed |
| `ObserverPattern.ClickScenario` | appes6.js:155-175 | subscribing a, b, a fires a, b, a; unsubscribing a removes both of its entries so only b fires; unsubscribing a again, once it is off the list, changes nothing |
| `RevealingModule.Find` | app.js:37-41 | nothing is found exactly when no item carries the id; otherwise the result is the item at the first position carrying it |
| `RevealingModule.FindAfterAppend` | app.js:32-41 | after `add`, `get` returns what it returned before if that was an item; otherwise the added item when it has the id, and nothing when it does not |
| `RevealingModule.FindPrefers` | appes6.js:37-41 | items added later never shadow an earlier item with the same id |
| `RevealingModule.ItemCtrl.constructor` | appes6.js:30 | the store starts empty |
| `RevealingModule.ItemCtrl.Add` | appes6.js:32-35 | the item is appended at the end, the length grows by one and earlier items are unchanged in value and position |
| `RevealingModule.ItemCtrl.Get` | appes6.js:37-41 | returns nothing exactly when no stored item has the id, otherwise a stored item with that id at the first such position; it reads the store and changes nothing |
| `RevealingModule.AddThenGet` | app.js:49-50 | adding `{id: 1, name: 'John'}` to an empty store and then getting id 1 returns that item |
| `SingletonPattern.CreateInstance` | appes6.js:56-59 | each call builds a new object named "Brad" |
| `SingletonPattern.Singleton.constructor` | appes6.js:53-54 | no instance exists before the first call |
| `SingletonPattern.Singleton.GetInstance` | appes6.js:61-66 | the first call creates a new instance and stores it; a later call returns the stored instance and creates nothing |
| `SingletonPattern.TwoCalls` | appes6.js:70-73 | two successive calls return the identical object |
| `FactoryPattern.CreateMember` | appes6.js:77-111 | succeeds exactly for the tags `simple`, `standard` and `super`, with the given name, that tag as type and the cost `$5`/`$15`/`$25` of the price list; any other tag fails with that tag |
| `FactoryPattern.DefineLayout` | appes6.js:90-92 | the line `define` logs, "name (type): cost": it is the name, then " (", then the type, then "): ", then the cost |
| `FactoryPattern.DemoRoster` | appes6.js:113-119 | the four members the module creates carry the expected names, types and costs |
| `FactoryPattern.DemoDefineLines` | appes6.js:121-123 | `define` renders each of the four as "name (type): cost", in creation order |

## Left out

- `UICtrl` and every DOM access (`document.querySelector`, `textContent`,
  `addEventListener`): browser I/O. The button wiring of appes6.js:155-175 is
  represented only by `ClickScenario`, a fixed sequence of calls.
- All `console.log` output, including the subscribe/unsubscribe messages and
  the text `define` writes; `Define` gives that text as a value.
- The click handlers `getCurMilliseconds` and `getCurSeconds`: they read the
  wall clock. A callback's own effect when `fire` calls it is not modelled;
  `Fire` records only which callbacks were invoked.
- `fn.name`, `item.call()` and `this` binding: callbacks are reduced to
  identities.
- EventObserver.Fire: assumes callbacks neither throw nor change the list
  while `forEach` runs. In the source a throwing callback stops the remaining
  calls; isolating such failures would be a change of behaviour, so the
  model follows the code and leaves exceptions out.
- ObserverPattern.Without: the source's filter keeps an entry when the
  callback returns the entry itself, i.e. when the entry is truthy; every
  callback is a function and so truthy, so the model keeps exactly the entries
  different from the callback.
- RevealingModule.Item: items are arbitrary JavaScript objects held by
  reference; the model stores values with an integer `id` and a `name`, so
  later mutation of an added object through another reference, an item
  without `id`, and ids of other types are not captured.
- SingletonPattern.Singleton: the source has one module-level `instance`; the
  model makes it a field of one object, of which the demonstration creates one.
- FactoryPattern.CreateMember: the three constructors are not separate
  members; their costs appear as the three branches of `CreateMember` and the
  reference table `Prices`. The `define` method attached to each record is
  `Define`, a function on the record.
- The mediator (chat room) and state patterns are not part of this model:
  their source is not among the modelled files.
