# Workshop record store

A model of the core of a small workshop-management application (clients, their vehicles,
service visits and a parts inventory). The application keeps five tables — Client, Vehicle,
Service, Part and ServicePart, the last one linking a service to a part with a consumed
quantity — and offers:

- a registration workflow that creates a service together with the parts it consumed,
  decrementing each part's stock, all in one transaction;
- per-entity handlers that validate form fields (year, licence plate, description) and then
  insert, edit or delete rows, with the cascades the relationships declare;
- a factory that maps a class name to one of the five entity classes.

Modules:

- `Errors` — the outcomes of the operations (`Result`, `Error`, `Option`).
- `Entities` — the rows of the five tables and `CreateModel`, the closed name-to-class dispatch.
- `Validation` — the year, licence-plate and description checks, as pure predicates, with the
  year's integer value.
- `Consumption` — what the registration loop computes, as functions of the starting part table
  and the entry list (`Consume`, `NewLinks`, `RepeatsKnownPart`), and the lemmas that tie the
  recorded links to the stock movement.
- `Cascade` — the five tables as one value (`Tables`) and the deletions with their cascades.
- `Store` — the class `WorkshopStore`, whose map fields are the tables and whose methods are the
  handlers and the registration workflow. `Valid()` states that ids come from the allocators,
  that every link references an existing service and part, and that licence plates are unique.
  Each method either commits its whole result or leaves every field unchanged, which is how the
  session's commit and rollback appear in the model.

Behaviour of the code that the model keeps as it is:

- with the default SQLite database, opened without enabling foreign keys, a service may carry a dangling
  `vehicleId` and a vehicle a dangling `clientId`; neither insert fails for that reason;
- the registration workflow does not reject unknown part ids, it skips them;
- the registration workflow does fail when two entries name the same existing part: both links
  would carry the same composite key (service id, part id), the flush is refused, and
  everything rolls back;
- stock has no floor, and zero or negative quantities are applied as given.

## Model

| member | source | states |
|---|---|---|
| `Entities.CreateModel` | models.py:160-174 | exactly the five class names dispatch, each to the kind registered under that name; any other name fails with `UnknownModel` carrying the name |
| `Entities.CreateModelRoundTrip` | models.py:163-169 | every kind is reached from its own class name |
| `Validation.DigitsValue` | app.py:141 | the integer read from a digit string is below 10 to the power of its length |
| `Validation.YearValue` | app.py:137-141 | an accepted year field is stored as an integer between 0 and 9999 |
| `Validation.YearRoundTrip` | app.py:137-141 | every year 0..9999 written in decimal passes the check and is stored as itself |
| `Validation.PlateAcceptedAsWrittenMeaning` | app.py:144 | the check as written (length at most 7, then the `$`-anchored match) accepts one to seven characters of A-Z/0-9, or up to six of them followed by one newline |
| `Validation.PlateAcceptedMeaning` | app.py:144-145 | the corrected check accepts exactly one to seven characters, each A-Z or 0-9 |
| `Validation.PlateChecksDiffer` | app.py:191 | the two checks differ exactly on an accepted plate followed by a single newline |
| `Validation.TrailingNewlineAccepted` | app.py:144 | "ABC123" plus a newline passes the check as written and fails the corrected one |
| `Validation.YearAccepted` | app.py:137 | the year check: a non-empty string of ASCII digits of at most four characters (`isdigit` is false on the empty string) |
| `Validation.PatternMatches` | app.py:144 | `re.match(r'^[A-Z0-9]+$', s)`: a non-empty run of A-Z/0-9 from the start, then the end of the string or one final newline |
| `Validation.PlateAcceptedAsWritten` | app.py:191 | the plate check as written: rejected when longer than 7 characters or when the pattern does not match |
| `Validation.PlateAccepted` | app.py:144-145 | the corrected plate check: the same pattern anchored at the very end of the string, so no final newline |
| `Validation.DescriptionAccepted` | app.py:255 | the description check: at most 400 characters, the same test as app.py:412 |
| `Consumption.NewLinks` | models.py:211-217 | the links the loop adds for the new service: one per entry naming a known part, keyed by (service id, part id), holding the entry's quantity |
| `Consumption.SumQuantities` | models.py:220 | the total quantity the entries ask of one part |
| `Consumption.RepeatsKnownPart` | models.py:145-146 | two entries name the same existing part, so their links share one composite primary key |
| `Consumption.Consume` | models.py:205-220 | applying the entries never adds or removes a part |
| `Consumption.ConsumeStock` | models.py:220 | a known part keeps name and price and its stock drops by exactly the sum of the quantities naming it, with no floor and any sign |
| `Consumption.ConsumeUnnamed` | models.py:205-220 | a part no entry names is unchanged |
| `Consumption.NewLinksDomain` | models.py:205-217 | a link (sid, pid) is created exactly when pid is an existing part that some entry names; entries naming unknown parts create nothing and raise nothing |
| `Consumption.RepeatsSnoc` | models.py:145-146 | the composite key collides exactly when an entry names an existing part an earlier entry already named |
| `Consumption.StepFacts` | models.py:205-220 | one loop step: the part table, the pending links and the collision flag after entry i follow from those before it and entry i alone |
| `Consumption.NewLinksQuantity` | models.py:211-215 | without a collision, each new link carries its entry's quantity |
| `Consumption.NewLinksCount` | models.py:205-217 | without a collision, one link is created per entry naming an existing part |
| `Consumption.LinksMatchStock` | models.py:205-222 | without a collision, a part with a new link lost exactly that link's quantity and a part without one is unchanged |
| `Consumption.OilChangeExample` | models.py:189-223 | a part with stock 10 and one entry consuming two units ends at 8 with a single link of quantity 2 |
| `Consumption.MixedEntriesExample` | models.py:206-208 | an unknown entry beside a known one does not stop the known one |
| `Cascade.DropServices` | models.py:104-105 | removing services removes exactly their links and keeps every other row |
| `Cascade.DeleteService` | models.py:104-105 | deleting a service removes it and exactly its links; parts, and so their stock, are untouched |
| `Cascade.DeleteVehicle` | models.py:80-84 | deleting a vehicle removes it, exactly the services it owns and their links; nothing else changes |
| `Cascade.DeleteClient` | models.py:55-59 | deleting a client removes it, exactly its vehicles, their services and those services' links; parts are untouched |
| `Cascade.DeletePart` | app.py:371-372 | deleting a part removes it and exactly the links naming it; other parts and links keep their values |
| `Cascade.DeleteClientLeavesNothingOwned` | models.py:55-59 | after a client is deleted no vehicle, service or link it owned survives and every link still has its service |
| `Cascade.DeletePartLeavesNoOrphans` | app.py:371-373 | after a part is deleted no link names it and every link's part exists |
| `Store.ApplyPartsList` | models.py:205-220 | the loop's pending rows are exactly `Consume` and `NewLinks` of the entries, it reports a key collision exactly when one occurs, and otherwise each pending link's quantity equals its part's pending stock drop |
| `Store.WorkshopStore.Valid` | models.py:76 | ids come from the allocators, every link references an existing service and part (models.py:145-146), and licence plates are unique |
| `Store.WorkshopStore.constructor` | models.py:38-39 | the store starts with five empty tables |
| `Store.WorkshopStore.RegisterServiceWithParts` | models.py:189-230 | fails exactly on a storage fault or a key collision and then leaves the store unchanged; otherwise adds one service with a fresh id and the given vehicle, description and cost, the new links, the stock decrements matching them, and keeps every other row |
| `Store.WorkshopStore.NewClient` | app.py:41-62 | inserts the client under a fresh id and changes nothing else |
| `Store.WorkshopStore.DeleteClient` | app.py:92-110 | an unknown id changes nothing; otherwise the store becomes the client cascade of its old contents |
| `Store.WorkshopStore.NewVehicle` | app.py:126-155 | rejects a bad year, then a bad plate, then a plate already in use, each leaving the store unchanged; otherwise inserts the vehicle under a fresh id with the year's integer value |
| `Store.WorkshopStore.EditVehicle` | app.py:167-208 | an unknown id, a bad year, a bad plate or a plate held by another vehicle leaves the store unchanged, although make, model and client were assigned first; otherwise the row is overwritten |
| `Store.WorkshopStore.DeleteVehicle` | app.py:211-229 | an unknown id changes nothing; otherwise the store becomes the vehicle cascade of its old contents |
| `Store.WorkshopStore.NewService` | app.py:245-276 | a description over 400 characters, then a rejected cost, leaves the store unchanged; otherwise inserts the service under a fresh id |
| `Store.WorkshopStore.EditService` | app.py:398-434 | an unknown id, a long description or a rejected cost leaves the store unchanged; otherwise description, cost and vehicle are overwritten and links kept |
| `Store.WorkshopStore.DeleteService` | app.py:447-459 | an unknown id changes nothing; otherwise the service and its links go and no stock is restored |
| `Store.WorkshopStore.NewPart` | app.py:301-314 | inserts the part under a fresh id with whatever stock is given |
| `Store.WorkshopStore.EditPart` | app.py:325-340 | an unknown id changes nothing; otherwise name, price and stock are overwritten |
| `Store.WorkshopStore.DeletePart` | app.py:351-375 | an absent or zero id, then an unknown id, changes nothing; otherwise the part's links are purged and the part removed |

## Left out

- Flask routing, templates, `flash` messages, redirects, the list pages, the GET branches of the
  handlers and the global error page: presentation only.
- `DatabaseManager`, engine and session creation and the configuration lookups: infrastructure.
  The session's commit and rollback are modelled by writing every field at the end or none.
- `edit_client` (app.py:65-89) is not part of this model; `new_client` is, so that clients exist.
- Form parsing: `int(...)` and `float(...)` of the client id, vehicle id, part id, stock and
  price fields become typed parameters, so the `ValueError` they can raise is not modelled.
- Float values: price and cost are carried as opaque 64-bit patterns and never interpreted.
- The cost check (`float` parsing and the six-digit limit) depends on float handling; its outcome
  is the `Option` argument of `NewService` and `EditService` (`None` when it rejected the field).
- Timestamps: the service date (`utcnow` default, `now()` in the handler) is not modelled.
- `String(n)` column lengths: not enforced by SQLite.
- Concurrency: concurrent stock decrements across transactions depend on storage isolation.
- Primary keys come from a per-table counter; SQLite's reuse of the largest freed row id is not
  modelled. That fresh ids are distinct from all existing ones is all the code relies on.
- Storage faults are modelled only in the registration workflow (its `storageFault` argument);
  the handlers' commits fail only on the unique licence-plate constraint.
- Integers are unbounded: the 64-bit limit of SQLite's INTEGER columns (for stock) is not modelled.
- The workflow's entries are typed pairs of integers. A missing dictionary key, or a quantity that
  cannot be subtracted from the stock (a string, `None`), raises inside the loop and rolls back; a
  float quantity is applied and stored as a real number in the integer columns, which SQLite does
  not type-check. Neither case is modelled.
- `CreateModel` returns the kind only; the keyword arguments are not modelled (each handler
  builds its row directly), so a `TypeError` for an unknown keyword is not either.
- `Validation.YearAccepted`: digits are ASCII `0`-`9` only; Python's `isdigit` also accepts other
  Unicode digits (some of which `int` then rejects).
- `Store.WorkshopStore.NewVehicle`: uses the corrected plate check (see Findings), so a plate of up
  to six A-Z/0-9 characters followed by one final newline (for example "ABC123" plus a newline),
  which the code accepts and stores, is rejected by the model.
- `Store.WorkshopStore.EditVehicle`: uses the corrected plate check (see Findings), so a plate of up
  to six A-Z/0-9 characters followed by one final newline (for example "ABC123" plus a newline),
  which the code accepts and commits, is rejected by the model.

## Findings

| source | as written | input that shows it | evidently intended | confidence | as-written member | corrected member |
|---|---|---|---|---|---|---|
| app.py:144 and app.py:191 | the plate is matched with `re.match` against a pattern ending in `$`, which also matches just before a final newline | "ABC123" followed by a newline (7 characters) passes and would be stored with the newline | one to seven characters, each an upper-case letter or a digit, as the rejection message says | not executed | `Validation.TrailingNewlineAccepted` | `Validation.PlateAcceptedMeaning` |
