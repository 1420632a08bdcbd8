# Event ticketing admin dashboard — a Dafny model

This project models the logic of an admin dashboard for selling event tickets, a single-page React
application. It covers:

- the bulk ticket import: CSV header and row validation, e-mail and ticket-count checks, and the error list;
- the ticket designer: its element list, the selected element, and the field updates;
- the ticket generator: its ticket selection and the records it generates;
- the events list and the venues list: search, filters, sorting, pagination, deletion and selection;
- the ticket-type form and the ticket-type list;
- the two event forms: the event page and the reusable event component;
- the venue form;
- the dashboard layout: page title, breadcrumb and sidebar.

Each React component whose state changes step by step is a Dafny `class`. Its `useState` variables
are fields, and each event handler is a method with a `modifies this` clause. Each method is proved
against a pure function that states the new state. Validation, filtering, sorting and paging are pure
functions, with lemmas stating what the source promises about them.

The JavaScript built-ins the components lean on have small modules of their own:
- `JsStrings`: `trim`, `toLowerCase`, `includes`, `join` and the e-mail regular expression;
- `JsNumbers`: `parseInt` and `Number`;
- `Seqs`: `filter`, `splice` and the selection toggle;
- `Paging`: `Math.ceil` and `slice`;
- `Sorting`: `Array.prototype.sort` with the events comparator.

Inputs from outside the program become parameters:
- the clock (`Date.now()`) is a millisecond count `now`;
- `window.confirm` is a boolean `confirmed`;
- `window.innerWidth` is a `width`;
- the parsed CSV is a sequence of rows of strings;
- whether the simulated save request succeeds is a boolean.

## Model

| member | source | states |
|---|---|---|
| BulkImport.MissingColumnsOf | src/components/tickets/BulkTicketImport.jsx:48-49 | a column is reported missing exactly when it is required and absent from the header, and the missing columns keep the order of the required-columns list |
| BulkImport.FirstMissing | src/components/tickets/BulkTicketImport.jsx:64-73 | no column is reported exactly when every required cell is filled; a reported column is required and its cell is absent, empty or white space |
| BulkImport.FirstMissingAt | src/components/tickets/BulkTicketImport.jsx:64-73 | the column loop reports the first missing column in the order of the required-columns list |
| BulkImport.RowProblemChain | src/components/tickets/BulkTicketImport.jsx:62-112 | a row's error code is that of the first failing check (missing cell, email pattern, positive `parseInt` count, known type), and a row is kept exactly when all four pass |
| BulkImport.CheckRow | src/components/tickets/BulkTicketImport.jsx:62-111 | the filter callback, with its loop over the required columns, returns exactly the row's problem from the check chain |
| BulkImport.ValidateStep | src/components/tickets/BulkTicketImport.jsx:61-112 | one more row extends the kept rows by that row when it passes, and the error list by one error numbered with its 1-based position when it fails |
| BulkImport.ValidateRows | src/components/tickets/BulkTicketImport.jsx:61-112 | the filter loop produces exactly the rows that pass and the errors of the rows that fail, in row order |
| BulkImport.RowsAccountedFor | src/components/tickets/BulkTicketImport.jsx:61-112 | kept rows plus errors equal the number of data rows: each row is kept or reported, exactly once |
| BulkImport.ErrorsDescribeRows | src/components/tickets/BulkTicketImport.jsx:66-108 | each error names a row by its 1-based index, that row failed with that code and message, and errors are in increasing row order |
| BulkImport.RefusedRowsReported | src/components/tickets/BulkTicketImport.jsx:62-112 | every refused row has an error naming it |
| BulkImport.ValidRowsAreAccepted | src/components/tickets/BulkTicketImport.jsx:62-112 | a row is in the kept list exactly when it is in the data and passes every check |
| BulkImport.TicketCountOfDigits | src/components/tickets/BulkTicketImport.jsx:87-88 | a count of plain decimal digits passes exactly when one digit is not `0`, so "0" and "000" are refused |
| BulkImport.TicketCountNegativeRefused | src/components/tickets/BulkTicketImport.jsx:87-88 | any count that starts with a minus sign is refused |
| BulkImport.TicketCountWordRefused | src/components/tickets/BulkTicketImport.jsx:87-88 | every count with no decimal digit parses to `NaN` and is refused |
| BulkImport.TicketCountHex | src/components/tickets/BulkTicketImport.jsx:87-88 | a `0x`-prefixed count is read in hexadecimal and accepted exactly when one of its digits is not `0`, so "0x5" passes the positive-count check |
| BulkImport.TicketTypeCaseInsensitive | src/components/tickets/BulkTicketImport.jsx:98-100 | the ticket-type lookup gives the same answer for a name and its lower-cased form |
| BulkImport.CompletionAccounting | src/components/tickets/BulkTicketImport.jsx:34-122 | a result record appears exactly when the parser reported nothing and every required column is present; then kept rows plus errors equal the row count; otherwise one error per parser problem, or one missing-columns error whose message lists the missing columns, comma-separated, in the required-columns order |
| BulkImport.Complete | src/components/tickets/BulkTicketImport.jsx:34-123 | the `complete` callback returns the completion the specification function defines |
| BulkImport.Importer.constructor | src/components/tickets/BulkTicketImport.jsx:6-9 | no file, no parse result, no errors |
| BulkImport.Importer.HandleFileChange | src/components/tickets/BulkTicketImport.jsx:14-133 | no file or a type other than `text/csv` changes nothing; otherwise the file is kept, and the errors and result come from the parser's error callback or the completion, and an earlier result survives a failed parse |
| BulkImport.Importer.HandleImport | src/components/tickets/BulkTicketImport.jsx:135-163 | without a result or with no valid rows nothing changes and nothing is imported; otherwise the valid rows are handed to the callback and the form is reset when it returns; when the callback throws, the catch block leaves the file, the parse result and the errors as they were |
| TicketDesigner.OrDefault | src/components/tickets/TicketDesigner.jsx:17 | the `title \|\| 'Event Name'` default: the given text unless it is absent or empty |
| TicketDesigner.Clamp | src/components/tickets/TicketDesigner.jsx:141 | the dragged coordinate is never negative, never past the limit, and unchanged when already inside |
| TicketDesigner.SetProp | src/components/tickets/TicketDesigner.jsx:166-170 | the list keeps its length, ids and kinds; elements with another id are untouched; those with the id get exactly that property set |
| TicketDesigner.SetPropKeepsIds | src/components/tickets/TicketDesigner.jsx:166-170 | a property update neither adds nor removes any id |
| TicketDesigner.SetPropReads | src/components/tickets/TicketDesigner.jsx:166-170 | the updated property reads back as written and every other property is unchanged |
| TicketDesigner.TemplateBackground | src/components/tickets/TicketDesigner.jsx:250-265 | "vip" gives amber, "concert" blue, any other template white |
| TicketDesigner.ApplyAll | src/components/tickets/TicketDesigner.jsx:173 | the functional selection updates keep the id and kind, keep every property, and the last update's value is the one read |
| TicketDesigner.QrSizeAsWrittenLosesWidth | src/components/tickets/TicketDesigner.jsx:492-496 | as written, the element list ends with the old width and the new height, while the selection shows the new width |
| TicketDesigner.QrSizeExample | src/components/tickets/TicketDesigner.jsx:13-84 | on the starting template, typing any whole number (such as 200) as the QR size leaves the code 150 wide and makes it that number high |
| TicketDesigner.Designer.constructor | src/components/tickets/TicketDesigner.jsx:6-88 | the 1000x500 white canvas, the six starting elements, no selection, not dragging, and the protected elements present |
| TicketDesigner.Designer.ElementClick | src/components/tickets/TicketDesigner.jsx:109-123 | the clicked element is copied into the selection, the offset is the mouse position less the element's corner, and dragging starts |
| TicketDesigner.Designer.CanvasClick | src/components/tickets/TicketDesigner.jsx:126-128 | the selection is dropped and nothing else changes |
| TicketDesigner.Designer.MouseMove | src/components/tickets/TicketDesigner.jsx:131-144 | without dragging or a selection nothing moves; otherwise the selected element moves to the mouse position less the offset, clamped to 20 units inside the canvas |
| TicketDesigner.Designer.MouseUp | src/components/tickets/TicketDesigner.jsx:147-149 | dragging ends and nothing else changes |
| TicketDesigner.Designer.UpdateElement | src/components/tickets/TicketDesigner.jsx:163-174 | without a selection nothing changes; otherwise the list elements with the selected id and the selection both get the property |
| TicketDesigner.Designer.SetQrSize | src/components/tickets/TicketDesigner.jsx:492-496 | the QR size field with both updates reaching the list: width and height both set to `parseInt` of the text |
| TicketDesigner.SetQrSizeSquare | src/components/tickets/TicketDesigner.jsx:492-496 | after the corrected update the QR element is square |
| TicketDesigner.Designer.AddTextElement | src/components/tickets/TicketDesigner.jsx:177-193 | a "New Text" element with id `text-<stamp>` is appended and selected |
| TicketDesigner.Designer.DeleteSelected | src/components/tickets/TicketDesigner.jsx:196-207 | with no selection or a protected id nothing changes; otherwise every element with that id is removed, the rest keep their order, and the selection clears |
| TicketDesigner.Designer.LoadTemplate | src/components/tickets/TicketDesigner.jsx:245-266 | only the canvas background changes, to the template's colour |
| TicketDesigner.Designer.LoadBackground | src/components/tickets/TicketDesigner.jsx:210-227 | only a file whose type starts with `image/` becomes the background image |
| TicketDesigner.Designer.KeepsIds | src/components/tickets/TicketDesigner.jsx:139-143 | a list with the same ids, position by position, has the same set of ids, so the editor's invariant holds |
| TicketDesigner.MoveToKeepsIds | src/components/tickets/TicketDesigner.jsx:139-143 | a drag neither adds nor removes any id |
| TicketDesigner.MoveToPlaces | src/components/tickets/TicketDesigner.jsx:139-143 | a drag puts the selected element at the given position and leaves the others alone |
| TicketGenerator.QrPayloadInjective | src/components/tickets/TicketGenerator.jsx:51 | within one event, two tickets with the same QR data have the same id |
| TicketGenerator.Find | src/components/tickets/TicketGenerator.jsx:46 | `find` gives nothing exactly when no ticket has the id; otherwise a listed ticket with that id |
| TicketGenerator.GenerateAllSucceeds | src/components/tickets/TicketGenerator.jsx:45-59 | generation succeeds exactly when every selected id names a ticket; otherwise the thrown error is caught |
| TicketGenerator.GenerateAllRecords | src/components/tickets/TicketGenerator.jsx:45-54 | one record per selected id, in selection order, with that ticket's attendee and type and the QR address of its id and the event |
| TicketGenerator.ArchiveOf | src/components/tickets/TicketGenerator.jsx:92-101 | the archive is named `<event>_tickets.zip` and holds exactly the files `<attendee>_<event>.pdf` of the generated tickets |
| TicketGenerator.ArchiveFilesSnoc | src/components/tickets/TicketGenerator.jsx:73-96 | one more ticket adds its own file name to the archive and nothing else |
| TicketGenerator.ArchiveSize | src/components/tickets/TicketGenerator.jsx:92 | the archive holds at most one file per generated ticket; same-named files overwrite each other |
| TicketGenerator.Ids | src/components/tickets/TicketGenerator.jsx:18 | the ids of all tickets, position by position |
| TicketGenerator.Generator.constructor | src/components/tickets/TicketGenerator.jsx:11-14 | nothing selected and nothing generated |
| TicketGenerator.Generator.SelectAll | src/components/tickets/TicketGenerator.jsx:16-22 | ticking selects every ticket id in list order, so the header box shows ticked; unticking clears the selection |
| TicketGenerator.Generator.Select | src/components/tickets/TicketGenerator.jsx:24-30 | the id is toggled: it is selected afterwards exactly when it was not before |
| TicketGenerator.Generator.Generate | src/components/tickets/TicketGenerator.jsx:32-64 | an empty selection is refused; a selected id with no ticket fails and keeps the earlier results; otherwise the generated list is replaced and its size reported |
| TicketGenerator.Generator.DownloadZip | src/components/tickets/TicketGenerator.jsx:66-103 | nothing generated gives no archive; otherwise the archive of the generated tickets |
| EventsList.CutoffAsWritten | src/pages/events/EventsList.jsx:238-251 | the page's cutoff: "last30days" keeps events from 30 days before now on, "last90days" from 120 days before (the 90-day step starts from the clock already moved back 30 days), and any other range sets no bound |
| EventsList.Cutoff | src/pages/events/EventsList.jsx:238-251 | the evidently intended cutoff, used only by the corrected half of the 90-day finding: "last30days" 30 days and "last90days" 90 days before now, any other range no bound |
| EventsList.FiltersAreFilters | src/pages/events/EventsList.jsx:220-252 | each of the search, status, category and date filters keeps exactly the events that pass its own test; "all" or an empty term keeps everything |
| EventsList.FilteredIsOneFilter | src/pages/events/EventsList.jsx:216-252 | the four filters in a row keep exactly the events passing all four tests, in their original order |
| EventsList.PipelineSpec | src/pages/events/EventsList.jsx:216-265 | the shown list is sorted by the chosen column and direction, is a permutation of the events passing every filter, and keeps fetched order among equal keys |
| EventsList.FilteredSubseq | src/pages/events/EventsList.jsx:216-252 | before sorting, the filtered list is a subsequence of the fetched events |
| EventsList.NoFiltersKeepAll | src/pages/events/EventsList.jsx:220-238 | with no search term and every filter at "all" every event passes |
| EventsList.DateRangeWindows | src/pages/events/EventsList.jsx:238-251 | the corrected ranges keep exactly the events created within 30 or 90 days before now, and the 30-day range keeps a subset of the 90-day one |
| EventsList.DateRangeWindowsAsWritten | src/pages/events/EventsList.jsx:238-251 | the page keeps, for "last30days", exactly the events created within 30 days before now and, for "last90days", those within 120 days: the intended 90-day window plus the events 90 to 120 days old |
| EventsList.NinetyDaysAsWrittenKeepsOlder | src/pages/events/EventsList.jsx:239-248 | as written, the second `setDate` starts from a clock already moved back 30 days, so "last90days" keeps an event created 100 days ago, and the page's filter shows it |
| EventsList.NextSort | src/pages/events/EventsList.jsx:278-284 | a header click sorts by that column, descending exactly when it was already sorted ascending by it |
| EventsList.NextSortAlternates | src/pages/events/EventsList.jsx:278-284 | clicking the same header again flips the direction, a third click returns to the second click's order, and a new column starts ascending |
| EventsList.EventsListPage.constructor | src/pages/events/EventsList.jsx:10-32 | no events, no search term, every filter at "all", sorted by id ascending, page 1 of 0 after the effect's first run |
| EventsList.EventsListPage.Refresh | src/pages/events/EventsList.jsx:216-268 | the shown list is the filtered and sorted events, the page count is its length over the page size rounded up, and the page is 1 |
| EventsList.EventsListPage.Load | src/pages/events/EventsList.jsx:38-205 | the fetched events replace the list and the effect then filters and sorts them |
| EventsList.EventsListPage.Search | src/pages/events/EventsList.jsx:208-213 | the term is set and the page goes to 1; the list is recomputed only when the term changed |
| EventsList.EventsListPage.SetStatusFilter | src/pages/events/EventsList.jsx:429 | only the status filter changes, and the list is recomputed from page 1 |
| EventsList.EventsListPage.SetCategoryFilter | src/pages/events/EventsList.jsx:446 | only the category filter changes, and the list is recomputed from page 1 |
| EventsList.EventsListPage.SetDateRangeFilter | src/pages/events/EventsList.jsx:464 | only the date-range filter changes, and the list is recomputed from page 1 with the page's own cutoffs: 30 days back for "last30days", 120 days back for "last90days" |
| EventsList.EventsListPage.ResetFilters | src/pages/events/EventsList.jsx:485-492 | every filter goes back to "all" and the list is recomputed from page 1 |
| EventsList.EventsListPage.HandleSort | src/pages/events/EventsList.jsx:278-284 | the sort configuration follows the header-click rule and the list is re-sorted from page 1 |
| EventsList.EventsListPage.DeleteEvent | src/pages/events/EventsList.jsx:287-292 | a declined confirmation changes nothing; an accepted one removes every event with that id and recomputes the list |
| EventsList.EventsListPage.PrevPage | src/pages/events/EventsList.jsx:640-641 | disabled on page 1; otherwise one page back, never below 1 |
| EventsList.EventsListPage.NextPage | src/pages/events/EventsList.jsx:649-650 | disabled on the last page; otherwise one page on, never past the page count, which is page 0 when there are no pages |
| EventsList.EventsListPage.GoToPage | src/pages/events/EventsList.jsx:685-687 | the numbered button `i + 1` goes to that page |
| EventsList.EventsListPage.CurrentPageEvents | src/pages/events/EventsList.jsx:271-275 | the page holds at most ten rows, all from the shown list, and is non-empty exactly when the page number is within the page count |
| EventsList.PageShowsRows | src/pages/events/EventsList.jsx:266-275 | while the page number is in range, the current page is empty only if the whole list is |
| VenuesList.FilteredIsOneFilter | src/pages/venues/VenuesList.jsx:199-225 | the search, capacity and amenity filters in a row keep exactly the venues passing all three tests, in their original order |
| VenuesList.FilteredSpec | src/pages/venues/VenuesList.jsx:199-227 | a venue is shown exactly when it was fetched and passes every filter, and the shown list is a subsequence of the fetched one |
| VenuesList.BucketsPartition | src/pages/venues/VenuesList.jsx:212-217 | every venue is in exactly one of the small, medium and large buckets |
| VenuesList.BucketsCount | src/pages/venues/VenuesList.jsx:211-218 | the three bucket filters together list every venue exactly once |
| VenuesList.AmenityFilterMonotone | src/pages/venues/VenuesList.jsx:221-225 | no required amenity keeps every venue, and requiring more amenities never keeps more venues |
| VenuesList.PrevPage | src/pages/venues/VenuesList.jsx:546-547 | Previous is disabled on page 1 and otherwise goes one page back |
| VenuesList.NextPageAsWritten | src/pages/venues/VenuesList.jsx:556-557 | the page's Next button: it stays put exactly when the page equals the page count and otherwise goes one page on |
| VenuesList.ButtonsAsWrittenKeepPageReachable | src/pages/venues/VenuesList.jsx:546-557 | the buttons as written keep the page at least 1, and within the page count whenever there is a page; with pages they agree with the corrected Next |
| VenuesList.NextPageAsWrittenRunsPast | src/pages/venues/VenuesList.jsx:556-557 | as written, with no pages at all Next is never disabled and walks to pages 2, 3, ... |
| VenuesList.NextPage | src/pages/venues/VenuesList.jsx:556-557 | the corrected Next stays put from the last page on and otherwise goes one page on |
| VenuesList.ButtonsKeepPageInRange | src/pages/venues/VenuesList.jsx:546-557 | with the corrected Next, both buttons keep the page at least 1 and within the page count, or at 1 when there are no pages |
| VenuesList.VenuesListPage.constructor | src/pages/venues/VenuesList.jsx:9-26 | no venues, no search term, no filters, page 1 of 0 after the effect's first run |
| VenuesList.VenuesListPage.Refresh | src/pages/venues/VenuesList.jsx:199-230 | the shown list is the filtered venues, the page count is its length over twelve rounded up, and the page is 1 |
| VenuesList.VenuesListPage.Load | src/pages/venues/VenuesList.jsx:176-188 | the fetched venues replace the list and the effect then filters them |
| VenuesList.VenuesListPage.Search | src/pages/venues/VenuesList.jsx:191-196 | the term is set, the page goes to 1 and the shown list is filtered by the new term |
| VenuesList.VenuesListPage.SetCapacityFilter | src/pages/venues/VenuesList.jsx:346 | only the capacity bucket changes, and the list is recomputed from page 1 |
| VenuesList.VenuesListPage.ToggleAmenityFilter | src/pages/venues/VenuesList.jsx:248-260 | the amenity is removed when required and appended otherwise; the bucket is kept and the list is recomputed from page 1 |
| VenuesList.VenuesListPage.ResetFilters | src/pages/venues/VenuesList.jsx:391-397 | the bucket goes back to "all", no amenity is required, and the list is recomputed from page 1 |
| VenuesList.VenuesListPage.DeleteVenue | src/pages/venues/VenuesList.jsx:240-245 | a declined confirmation changes nothing; an accepted one removes every venue with that id and recomputes the list |
| VenuesList.VenuesListPage.GoPrev | src/pages/venues/VenuesList.jsx:546-547 | the Previous button goes one page back unless on page 1, and the page stays at least 1 and within the page count when there are pages |
| VenuesList.VenuesListPage.GoNext | src/pages/venues/VenuesList.jsx:556-557 | the Next button as written: it stays put only when the page equals the page count, so with pages it never passes the last one, and with none it keeps going |
| VenuesList.VenuesListPage.CurrentPageVenues | src/pages/venues/VenuesList.jsx:233-237 | the page holds at most twelve venues, all from the shown list, and is non-empty exactly when the page number is within the page count |
| TicketTypeForm.Validate | src/components/tickets/TicketTypeForm.jsx:59-73 | a name error exactly when the name is blank; a price error exactly when it is blank or `Number` gives NaN or a negative value; a capacity error exactly when it is blank or not a positive integer; never a description error; and the message that applies to each |
| TicketTypeForm.ValidIff | src/components/tickets/TicketTypeForm.jsx:59-83 | the form passes exactly when none of the three checks fails |
| TicketTypeForm.WholePriceGood | src/components/tickets/TicketTypeForm.jsx:63-67 | a run of digits is an accepted price |
| TicketTypeForm.WholeCapacityGood | src/components/tickets/TicketTypeForm.jsx:69-73 | a run of digits, not all zero, is an accepted capacity |
| TicketTypeForm.WholeNumbersPass | src/components/tickets/TicketTypeForm.jsx:59-83 | a named ticket type with a whole price and a whole nonzero capacity passes validation |
| TicketTypeForm.FractionalCapacityRefused | src/components/tickets/TicketTypeForm.jsx:71-72 | a capacity such as `2.5` is refused as not a positive integer |
| TicketTypeForm.NegativePriceRefused | src/components/tickets/TicketTypeForm.jsx:65-66 | a negative whole price is refused as not a valid number |
| TicketTypeForm.NormalizePerks | src/components/tickets/TicketTypeForm.jsx:76-80 | the perks kept by validation are never empty: the non-blank perks of the form, or a single empty perk |
| TicketTypeForm.NormalizePerksIdempotent | src/components/tickets/TicketTypeForm.jsx:76-80 | validating the perks twice gives the same list as once |
| TicketTypeForm.SavedPerksAgree | src/components/tickets/TicketTypeForm.jsx:76-94 | the perks handed on are the non-blank perks, whether taken from the form before or after validation |
| TicketTypeForm.TicketTypeEditor.constructor | src/components/tickets/TicketTypeForm.jsx:6-14 | the initial data when given, otherwise empty fields and one empty perk; no errors |
| TicketTypeForm.TicketTypeEditor.HandleChange | src/components/tickets/TicketTypeForm.jsx:16-30 | the field takes the value; its error message, if any, is cleared and every other error is kept |
| TicketTypeForm.TicketTypeEditor.HandlePerkChange | src/components/tickets/TicketTypeForm.jsx:32-40 | only the perk at that index changes |
| TicketTypeForm.TicketTypeEditor.AddPerk | src/components/tickets/TicketTypeForm.jsx:42-47 | an empty perk is appended |
| TicketTypeForm.TicketTypeEditor.RemovePerk | src/components/tickets/TicketTypeForm.jsx:49-57 | the perk at that index is removed, except the only one, so at least one perk remains |
| TicketTypeForm.TicketTypeEditor.Submit | src/components/tickets/TicketTypeForm.jsx:59-101 | the errors are those of validation and the perks are normalized; the ticket type is handed on exactly when validation passes, with its blank perks dropped |
| TicketTypesList.Available | src/components/tickets/TicketTypesList.jsx:127-135 | what remains is the capacity, less the sold count when one is given |
| TicketTypesList.AvailableCounts | src/components/tickets/TicketTypesList.jsx:131-135 | the badge shows stock exactly when fewer were sold than the capacity; one more sale lowers what remains by one; with no sold count, stock exactly when the capacity is positive |
| TicketTypesList.PerkSummary | src/components/tickets/TicketTypesList.jsx:140-151 | "No perks" exactly when there are none; otherwise the first two perks (or fewer) are shown, and they plus the "+n more" count account for every perk |
| TicketTypesList.MoreShownIff | src/components/tickets/TicketTypesList.jsx:149-151 | "+n more" appears exactly when there are more than two perks, and then n is the count beyond two |
| TicketTypesList.TypeIds | src/components/tickets/TicketTypesList.jsx:11 | the ids of all types, position by position |
| TicketTypesList.TypeSelection.constructor | src/components/tickets/TicketTypesList.jsx:6-7 | nothing selected |
| TicketTypesList.TypeSelection.HeaderCheckedIff | src/components/tickets/TicketTypesList.jsx:71 | while every selected id is still listed, the header's length test is ticked exactly when every listed type is selected |
| TicketTypesList.TypeSelection.HeaderCheckedWithStaleId | src/components/tickets/TicketTypesList.jsx:71 | once a selected id is no longer listed, a ticked header leaves some listed type unselected |
| TicketTypesList.TypeSelection.SetTicketTypes | src/components/tickets/TicketTypesList.jsx:6-7 | the parent's new list replaces the old one and the selection is kept as it is |
| TicketTypesList.TypeSelection.RowDelete | src/components/tickets/TicketTypesList.jsx:164-170 | a row's delete button hands over that row's id exactly when the confirmation is accepted |
| TicketTypesList.TypeSelection.StaleSelectionExample | src/components/tickets/TicketTypesList.jsx:164-170 | types a and b, a selected, a deleted through its row and dropped by the parent: the header is ticked, b is not selected, and "Delete Selected" hands a over again |
| TicketTypesList.TypeSelection.SelectAll | src/components/tickets/TicketTypesList.jsx:9-15 | ticking selects every type id in list order, so the header shows ticked; unticking clears the selection; either way every selected id is listed |
| TicketTypesList.TypeSelection.Select | src/components/tickets/TicketTypesList.jsx:17-23 | the id is toggled, the selection still names each id at most once, and it names only listed ids exactly when it did before |
| TicketTypesList.TypeSelection.DeleteSelected | src/components/tickets/TicketTypesList.jsx:25-31 | a declined confirmation deletes nothing; an accepted one hands over each selected id once, in selection order, and clears the selection |
| EventFormPage.Validate | src/pages/events/EventForm.jsx:277-312 | the error dictionary has an entry exactly for the fields whose check fails, each with that check's message |
| EventFormPage.ValidateRequired | src/pages/events/EventForm.jsx:281-289 | each of the nine required fields has an entry exactly when it is blank or unset; an unset event date or end date always has one |
| EventFormPage.ValidateNumbers | src/pages/events/EventForm.jsx:292-298 | a numeric field has an entry exactly when it is filled in and `Number` gives NaN; the uploads never have one |
| EventFormPage.ValidateDateOrder | src/pages/events/EventForm.jsx:285-309 | the end date has an entry exactly when unset or before the start, the event date exactly when unset or before the end of selling; the order messages replace the required ones |
| EventFormPage.CompletePasses | src/pages/events/EventForm.jsx:277-312 | on a form where every check holds, no field has an error |
| EventFormPage.FieldChecksPass | src/pages/events/EventForm.jsx:281-309 | when the text and date checks pass, those fields are filled in and the dates are in order |
| EventFormPage.NumberChecksPass | src/pages/events/EventForm.jsx:292-298 | when the numeric checks pass, neither field is a non-number |
| EventFormPage.ValidIff | src/pages/events/EventForm.jsx:277-312 | the form passes exactly when every field is filled in, both numbers read, and the dates are in order |
| EventFormPage.LastRefused | src/pages/events/EventForm.jsx:189-212 | no position exactly when every file is accepted; otherwise the last refused file of the drop |
| EventFormPage.LastRejection | src/pages/events/EventForm.jsx:189-212 | no message exactly when every file is accepted; otherwise the message of the last refused file, about its type or else its size |
| EventFormPage.SortGalleryDrop | src/pages/events/EventForm.jsx:189-212 | the loop over a drop yields the accepted files in drop order and the last refused file's message |
| EventFormPage.GalleryDropAccounting | src/pages/events/EventForm.jsx:189-226 | every dropped file is either added or refused, and a message is left exactly when some file is refused |
| EventFormPage.AddedAmenityClean | src/pages/events/EventForm.jsx:240-248 | an added amenity is the input trimmed: non-empty, with no white space at either end, and trimming it again changes nothing |
| EventFormPage.EventEditor.constructor | src/pages/events/EventForm.jsx:19-95 | a new event starts with empty fields, an edited one with the loaded record; no errors and no amenity typed |
| EventFormPage.EventEditor.HandleChange | src/pages/events/EventForm.jsx:98-127 | the field takes the value and only that field's message is cleared |
| EventFormPage.EventEditor.HandleDateChange | src/pages/events/EventForm.jsx:130-142 | the date takes the value and only that date's message is cleared |
| EventFormPage.EventEditor.SetNewAmenity | src/pages/events/EventForm.jsx:622 | only the amenity input changes |
| EventFormPage.EventEditor.AddAmenity | src/pages/events/EventForm.jsx:240-248 | a blank input changes nothing; otherwise its trimmed text is appended and the input emptied |
| EventFormPage.EventEditor.RemoveAmenity | src/pages/events/EventForm.jsx:251-258 | the amenity at that index is removed and the others keep their order |
| EventFormPage.EventEditor.RemoveGalleryImage | src/pages/events/EventForm.jsx:230-237 | the image at that index is removed and the others keep their order |
| EventFormPage.EventEditor.RemoveThumbnail | src/pages/events/EventForm.jsx:396-404 | only the thumbnail is cleared; the errors and the amenity input stay, and the validation result is the same, since no check reads the thumbnail |
| EventFormPage.EventEditor.OnThumbnailDrop | src/pages/events/EventForm.jsx:145-185 | only the first file counts: a wrong type or a size over 5 MB leaves a message and keeps the thumbnail; otherwise it becomes the thumbnail and its message is cleared |
| EventFormPage.EventEditor.OnGalleryDrop | src/pages/events/EventForm.jsx:188-227 | the accepted files are appended after the existing images; each error update starts from the errors before the drop, so the last one wins |
| EventFormPage.EventEditor.Submit | src/pages/events/EventForm.jsx:316-329 | the errors become the validation result, and the save goes ahead exactly when every check holds |
| EventFormComponent.RequiredErrors | src/components/EventForm.jsx:115-118 | title, date, time and location each have an entry exactly when blank or unset; no other field has one |
| EventFormComponent.NumberErrors | src/components/EventForm.jsx:121-128 | price and maximum attendees get an entry when filled in and `Number` gives NaN; no other entry is touched |
| EventFormComponent.Errors | src/components/EventForm.jsx:111-131 | the dictionary has the required-field entries, plus a price or attendees entry exactly when that field is a non-number |
| EventFormComponent.ErrorsEmptyIff | src/components/EventForm.jsx:111-131 | the form passes exactly when every checked field passes |
| EventFormComponent.ImageTypeWeaker | src/components/EventForm.jsx:79 | every type starting with `image/` passes this form's `match('image.*')` |
| EventFormComponent.ImageTypeUnanchored | src/components/EventForm.jsx:79 | the unanchored pattern also accepts a type such as `application/x-image` |
| EventFormComponent.InitialPostIncomplete | src/components/EventForm.jsx:8-18 | the initial record does not pass validation |
| EventFormComponent.PostEventForm.constructor | src/components/EventForm.jsx:8-25 | the empty record, no errors and an empty status |
| EventFormComponent.PostEventForm.HandleChange | src/components/EventForm.jsx:43-57 | the field takes the value and only that field's message is cleared |
| EventFormComponent.PostEventForm.HandleDateChange | src/components/EventForm.jsx:60-72 | the date takes the value and only the date's message is cleared |
| EventFormComponent.PostEventForm.HandleFileChange | src/components/EventForm.jsx:75-108 | no file changes nothing; a non-image or a file over 5 MB keeps the image and sets the message; otherwise it becomes the image and the message is cleared |
| EventFormComponent.PostEventForm.Validate | src/components/EventForm.jsx:111-132 | the errors become the dictionary, and the result is true exactly when it is empty, which is exactly when every check passes |
| EventFormComponent.PostEventForm.Submit | src/components/EventForm.jsx:135-189 | a failing form keeps its data and shows the error status; a passing one is reset to the empty record on success, which would not pass again, and keeps its data with the failure status otherwise |
| VenueForm.WithField | src/pages/venues/VenueForm.jsx:17-20 | the named field takes the value, the other fields and the amenity list are unchanged |
| VenueForm.WithAmenity | src/pages/venues/VenueForm.jsx:22-30 | the amenities afterwards are the old ones plus the typed one when it is non-empty; the old list stays a prefix and stays duplicate-free; when something changes, exactly one amenity is added and the input is emptied |
| VenueForm.WithAmenityIdempotent | src/pages/venues/VenueForm.jsx:22-30 | pressing "Add" again changes nothing |
| VenueForm.BlankAmenityAdded | src/pages/venues/VenueForm.jsx:23 | an amenity of white space alone is still added, since only the empty string is refused |
| VenueForm.VenueEditor.constructor | src/pages/venues/VenueForm.jsx:9-15 | empty fields and no amenities |
| VenueForm.VenueEditor.HandleChange | src/pages/venues/VenueForm.jsx:17-20 | the field takes the value and the amenity list keeps no duplicates |
| VenueForm.VenueEditor.AddAmenity | src/pages/venues/VenueForm.jsx:22-30 | the record becomes the amenity function's result and the amenity list keeps no duplicates |
| DashboardLayout.PageTitle | src/layouts/DashboardLayout.jsx:41-49 | the root is "Dashboard"; otherwise the first of events, venues, users and settings whose path occurs in the route names the page, and anything else is "Dashboard" |
| DashboardLayout.FirstMatchWins | src/layouts/DashboardLayout.jsx:44-45 | "/venues/events" is titled "Events Management", because the events test comes first and is a substring test |
| DashboardLayout.UnknownRouteIsDashboard | src/layouts/DashboardLayout.jsx:48 | a route mentioning none of the four sections is titled "Dashboard" |
| DashboardLayout.Breadcrumb | src/layouts/DashboardLayout.jsx:75-82 | the trail starts with "Home" and has a second entry exactly when the route is not the root |
| DashboardLayout.BreadcrumbEndsInTitle | src/layouts/DashboardLayout.jsx:74-82 | the trail ends in the heading's title, or in "Home" on the root, whose title is "Dashboard" |
| DashboardLayout.Layout.constructor | src/layouts/DashboardLayout.jsx:8-25 | after the initial check, a window narrower than 768 pixels is mobile with the sidebar closed, and a wider one the reverse |
| DashboardLayout.Layout.HandleResize | src/layouts/DashboardLayout.jsx:15-23 | mobile exactly below 768 pixels, the sidebar open exactly when not mobile, and the content pushed aside exactly on a wide window |
| DashboardLayout.Layout.OnNavigate | src/layouts/DashboardLayout.jsx:34-38 | on mobile the sidebar closes, otherwise nothing changes; whether the content is pushed aside never changes |
| DashboardLayout.Layout.ToggleSidebar | src/components/layout/Navbar.jsx:65 | the sidebar flips and the mobile flag is kept |
| JsStrings.TrimStart | src/components/tickets/BulkTicketImport.jsx:65 | the result is a suffix of the input, starts with no white space, and only white space was dropped |
| JsStrings.TrimEnd | src/components/tickets/BulkTicketImport.jsx:65 | the result is a prefix of the input, ends with no white space, and only white space was dropped |
| JsStrings.BlankIffTrimEmpty | src/components/tickets/BulkTicketImport.jsx:65 | `s.trim() === ''` holds exactly when every character of `s` is white space |
| JsStrings.TrimClean | src/pages/events/EventForm.jsx:241-244 | a trimmed string neither starts nor ends with white space, and trimming again changes nothing |
| JsStrings.ToLower | src/components/tickets/BulkTicketImport.jsx:99 | lower-casing keeps the length and maps each character on its own |
| JsStrings.ToLowerIdempotent | src/components/tickets/BulkTicketImport.jsx:99 | lower-casing twice is lower-casing once |
| JsStrings.IncludesIffOccurs | src/layouts/DashboardLayout.jsx:44-47 | `includes` holds exactly when the text occurs at some position |
| JsStrings.IncludesEmpty | src/pages/events/EventsList.jsx:222-223 | every string includes the empty string |
| JsStrings.IncludesPrefix | src/pages/events/EventsList.jsx:222-223 | a string includes each of its prefixes |
| JsStrings.Join | src/components/tickets/BulkTicketImport.jsx:53 | joining no parts gives the empty string, one part gives that part, and a non-empty join starts with its first part |
| JsStrings.JoinSnoc | src/components/tickets/BulkTicketImport.jsx:53 | joining one more part appends the separator and that part, so the parts appear in their order |
| JsStrings.JoinLength | src/components/tickets/BulkTicketImport.jsx:53 | the joined text is as long as all the parts plus one separator between each neighbouring pair |
| JsStrings.IndexOf | src/components/tickets/BulkTicketImport.jsx:76 | the first position of the character, or the length when absent |
| JsStrings.IsEmailIffMatches | src/components/tickets/BulkTicketImport.jsx:76-77 | the scan accepts exactly the strings `/^[^\s@]+@[^\s@]+\.[^\s@]+$/` matches |
| JsNumbers.DigitPrefix | src/components/tickets/BulkTicketImport.jsx:87 | the digits `parseInt` reads are the longest prefix made of digits of the radix |
| JsNumbers.ValuePositiveIff | src/components/tickets/BulkTicketImport.jsx:88 | a run of digits is worth more than 0 exactly when one of them is not `0` |
| JsNumbers.ParseIntOfDigits | src/components/tickets/BulkTicketImport.jsx:87 | `parseInt` of a run of decimal digits is their value |
| JsNumbers.ParseIntOfNegativeDigits | src/components/tickets/BulkTicketImport.jsx:87 | `parseInt` of a minus sign and decimal digits is the negated value |
| JsNumbers.ParseIntNegativeSign | src/components/tickets/BulkTicketImport.jsx:87-88 | a leading minus sign never gives a positive count |
| JsNumbers.ParseIntStopsAtNonDigit | src/components/tickets/TicketDesigner.jsx:493 | `parseInt` stops at the first character that is not a digit |
| JsNumbers.ParseIntOfWord | src/components/tickets/BulkTicketImport.jsx:87-88 | every text with no decimal digit anywhere is `NaN` |
| JsNumbers.ParseIntHex | src/components/tickets/TicketDesigner.jsx:393 | for every hexadecimal digit string `ds`, `"0x" + ds` parses to the radix-16 value of `ds` |
| JsNumbers.ToNumberOfDigits | src/components/tickets/TicketTypeForm.jsx:71 | `Number` of decimal digits is an integer worth their value |
| JsNumbers.ToNumberOfBlank | src/pages/events/EventForm.jsx:292 | white space alone is the number 0, not `NaN` |
| JsNumbers.ToNumberOfFraction | src/components/tickets/TicketTypeForm.jsx:65 | digits, a point and digits make the exact decimal they spell |
| JsNumbers.FractionNotInteger | src/components/tickets/TicketTypeForm.jsx:71 | a fraction ending in a non-zero digit fails `Number.isInteger` |
| JsNumbers.ToNumberOfStrayChar | src/components/EventForm.jsx:121 | any character other than a digit, a point or a sign makes `Number` yield `NaN` |
| JsNumbers.ToNumberOfNegative | src/components/tickets/TicketTypeForm.jsx:65 | a minus sign before non-zero digits gives a negative integer |
| JsNumbers.LastDigitNonZero | src/components/tickets/TicketTypeForm.jsx:71 | digits ending in a non-zero one are no multiple of a positive power of ten |
| Seqs.Filter | src/pages/events/EventsList.jsx:221-234 | `filter` keeps exactly the elements that satisfy the condition and never lengthens the list |
| Seqs.FilterAppend | src/components/tickets/BulkTicketImport.jsx:62 | filtering a concatenation is concatenating the filtered parts |
| Seqs.FilterFilter | src/pages/events/EventsList.jsx:221-248 | successive filters equal one filter by the conjunction of their conditions |
| Seqs.FilterAll | src/components/tickets/TicketTypeForm.jsx:76 | a filter every element passes returns the list unchanged |
| Seqs.FilterSplit | src/components/tickets/BulkTicketImport.jsx:62 | the rows a condition keeps and the rows its negation keeps add up to all rows |
| Seqs.FilterSubseq | src/pages/venues/VenuesList.jsx:204-224 | a filter result keeps its elements in their original order |
| Seqs.RemoveAt | src/components/tickets/TicketTypeForm.jsx:49-53 | `splice(i, 1)` removes exactly the element at `i` and shifts the rest down; an index past the end removes nothing |
| Seqs.Without | src/components/tickets/TicketGenerator.jsx:26 | removing an id leaves every other id and only those |
| Seqs.Toggle | src/components/tickets/TicketTypesList.jsx:17-23 | the toggled id is present afterwards exactly when it was absent before; every other id keeps its membership |
| Seqs.ToggleNoDuplicates | src/components/tickets/TicketGenerator.jsx:24-30 | toggling keeps a selection free of duplicates |
| Seqs.WithoutNoDuplicates | src/components/tickets/TicketGenerator.jsx:26 | removing an id keeps a selection free of duplicates |
| Seqs.WithoutAbsent | src/pages/venues/VenuesList.jsx:252 | removing an absent value changes nothing |
| Seqs.ToggleTwice | src/pages/venues/VenuesList.jsx:248-260 | selecting an unselected value and then unselecting it restores the selection exactly |
| Seqs.DistinctCount | src/components/tickets/TicketTypesList.jsx:71 | a list without duplicates holds as many values as it has positions |
| Seqs.SelectionCompleteIff | src/components/tickets/TicketTypesList.jsx:71 | with distinct ids drawn from the list, equal lengths mean every row is selected, and conversely |
| Seqs.EqualLengthMissesOne | src/components/tickets/TicketTypesList.jsx:71 | a distinct selection as long as a distinct list but holding a value the list lacks misses one of the list's entries |
| Paging.CeilDiv | src/pages/events/EventsList.jsx:266 | the page count is the least number of pages that holds every row |
| Paging.SliceIndex | src/pages/events/EventsList.jsx:272-274 | `slice` clamps an index into the list and counts a negative one from the end |
| Paging.Slice | src/pages/venues/VenuesList.jsx:234-236 | a slice is never longer than its list |
| Paging.PageWindow | src/pages/events/EventsList.jsx:271-275 | page `p` is the window from `(p - 1) * size` to `p * size` cut to the list, at most one page long |
| Paging.PageZero | src/pages/events/EventsList.jsx:271-275 | page 0 shows nothing |
| Paging.PageNonEmptyIff | src/pages/venues/VenuesList.jsx:228-237 | a page numbered from 1 shows rows exactly when it is within the page count |
| Paging.PagesPrefix | src/pages/events/EventsList.jsx:271-275 | the first `k` pages together are the first `k * size` rows |
| Paging.PagesCoverAll | src/pages/events/EventsList.jsx:266-275 | the pages the count promises show every row once, in order |
| Sorting.StrLessTrichotomy | src/pages/events/EventsList.jsx:256-262 | of `a < b`, `a == b` and `a > b` on strings exactly one holds |
| Sorting.StrLessTransitive | src/pages/events/EventsList.jsx:256 | string `<` is transitive |
| Sorting.Compare | src/pages/events/EventsList.jsx:255-263 | the comparator says -1 exactly when the first row goes first in the chosen direction, 1 exactly when it goes second, 0 exactly on equal keys |
| Sorting.SortBySorted | src/pages/events/EventsList.jsx:255 | the sorted rows are in comparator order |
| Sorting.SortByPermutation | src/pages/events/EventsList.jsx:255 | sorting neither loses nor invents rows |
| Sorting.SortByStable | src/pages/events/EventsList.jsx:255 | rows with equal keys keep their order, as the stable `Array.prototype.sort` does |

## Left out

- CSV tokenising: `Papa.parse` is a foreign library. The importer takes its outcome as input: the header fields, the parser's issues and the rows (src/components/tickets/BulkTicketImport.jsx:31-34).
- CSV template download: `Papa.unparse`, the Blob and the anchor click are browser I/O (src/components/tickets/BulkTicketImport.jsx:165-185).
- Ticket rendering and packaging: `html2canvas`, `jsPDF`, `createRoot` and the `Promise.all` fan-out are browser rendering and async I/O. `TicketGenerator.Generator.DownloadZip` models only which file names the archive holds (src/components/tickets/TicketGenerator.jsx:72-103).
- `emailTickets` only shows a message (src/components/tickets/TicketGenerator.jsx:105-111).
- Template save, preview and export hand the state to a callback, open a window or download JSON; they are I/O (src/components/tickets/TicketDesigner.jsx:230-242, 269-292).
- The designer's grid toggle and its list of saved templates are display state with no logic.
- The background upload's `FileReader`: `TicketDesigner.Designer.LoadBackground` receives the file's type and the data URL it would produce.
- Clock-based ids: `Date.now()` in the designer is a `stamp` parameter.
- The clock: the events date filter takes `now` in milliseconds as a parameter.
- Date parsing: a `createdAt` string is taken as a timestamp already. Days are 86 400 000 ms, so daylight-saving shifts are not modelled.
- Mouse offsets: `getBoundingClientRect` and the mouse position arrive as integer coordinates.
- Floating point: `Number` is modelled on plain decimal notation, kept exact. Exponents, `Infinity` and hexadecimal literals are not modelled. `parseInt` reads decimal and `0x` hexadecimal digits.
- Strings are sequences of characters, not UTF-16 code units. `toLowerCase` maps only the ASCII letters.
- Displayed text is not modelled: `toLocaleDateString`, the status badge, the "Showing X to Y" line, the view-mode switch and the list/grid rendering (src/pages/events/EventsList.jsx:313-340).
- Exporting the events list to CSV or PDF only shows a message (src/pages/events/EventsList.jsx:295-310).
- Mock data and fetch delays: each list page's `Load` takes the fetched rows as input. The `isLoading` and `isSaving` flags and `setTimeout` are not modelled.
- `toast` messages and `navigate` calls have no counterpart. A handler that would only show a message leaves the state alone in the model.
- `window.confirm` is a boolean parameter, `confirmed`.
- The lodash `debounce` around the search input is timing. A search applies at once in the model.
- React effect scheduling is not modelled. A handler that changes an effect's inputs recomputes the derived list inside the same method.
- EventsList.EventsListPage.constructor: the source starts with `totalPages` 1 and recomputes it on the first run of the effect. The model's state is the one after that first run: 0 pages for the empty list. The same holds for VenuesList.VenuesListPage.constructor.
- Scrolling to the first field with an error is display only (src/pages/events/EventForm.jsx:322-327).
- The simulated save in the reusable event form has no API: EventFormComponent.PostEventForm.Submit takes whether the post succeeds as `postSucceeds`.
- The venue form's `handleSubmit` only shows a message and navigates away (src/pages/venues/VenueForm.jsx:32-40).
- The other effects of the dashboard layout (adding and removing the resize listener) and the navigation bar's menus are plumbing (src/layouts/DashboardLayout.jsx:25-31).
- TicketTypesList.TypeSelection.constructor and TicketTypesList.TypeSelection.SetTicketTypes require the listed ids to be distinct, as React's `key` does. TicketTypesList.TypeSelection.Select and TicketTypesList.TypeSelection.RowDelete require the id to belong to a listed row, since checkboxes and delete buttons exist only for listed rows.
- TicketTypesList.TypeSelection.SetTicketTypes: which list the parent passes after a deletion is up to the parent, which is not part of this model; any distinct list may follow.
- `EventDetails` mounts the importer without its `ticketTypes` prop. The model takes the known ticket types as an explicit parameter (src/pages/events/EventDetails.jsx:47).
- Event propagation is not modelled: the element's `onMouseDown` stops only the mousedown event, so the click that follows still reaches the canvas's `onClick`, which clears the selection (src/components/tickets/TicketDesigner.jsx:109-128, 603, 625). TicketDesigner.Designer.ElementClick and TicketDesigner.Designer.CanvasClick are separate calls, and the model does not say which clicks the browser delivers. In the page, a selection survives the click only when the mouse button is released outside the canvas. The QR-size finding's input (the QR element selected) depends on that.
- Pages with no modellable logic: rendering, routing, mock fetches, charts, auth stubs and menu animation (the dashboard home, the users and settings pages, the event details and modal, the app shell, the auth context, the sidebar and the navigation bars).

## Findings

The page classes follow the code as written. Each corrected member stands beside them, with the intended property proved about it.

| source | as written | input that shows it | evidently intended | confidence | as-written member | corrected member |
|---|---|---|---|---|---|---|
| src/components/tickets/TicketDesigner.jsx:492-496 | the QR size field calls `updateElement` twice from the same render. Both calls map the same stale `elements` array, so the second write drops the first, and the list loses the new width while the selection keeps it. | starting template, QR element selected, type 200: the list holds width 150 and height 200 | width and height both set to the typed size | not executed | TicketDesigner.QrSizeAsWrittenLosesWidth | TicketDesigner.Designer.SetQrSize |
| src/pages/events/EventsList.jsx:239-248 | `now.setDate(now.getDate() - 90)` runs on a date already moved back 30 days, so "last90days" reaches 120 days back | an event created 100 days ago is kept by "last90days" | keep events from the last 90 days | not executed | EventsList.NinetyDaysAsWrittenKeepsOlder | EventsList.DateRangeWindows |
| src/pages/venues/VenuesList.jsx:556-557 | Next is disabled only when `currentPage === totalPages`. With no matching venues there are 0 pages and it is never disabled. | filters that match nothing; pressing Next goes from page 1 to 2 to 3 | Next disabled from the last page on | not executed | VenuesList.NextPageAsWrittenRunsPast | VenuesList.ButtonsKeepPageInRange |

