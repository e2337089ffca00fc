# CampusRide in Dafny

A model of CampusRide, an Android ride-sharing app for university campuses, with proofs about it.
Passengers book rides between campus spots. Drivers go online, accept or reject ride requests and
move a ride along its status chain. Passengers rate finished rides and top up a wallet. Every
ride event is also written to a local history table, which a background worker uploads.

The remote document store is modelled as one map from (collection, id) to a document; a document
is a map from field to value. Each screen that keeps state in fields becomes a class whose methods
update those fields. Each remote write is a function on that map; the screen methods are proved
equal to those functions, and the functions' properties are proved as lemmas. Every remote call
takes an explicit success flag. The local Room table is a class over a map keyed by ride id.

Modules, one per concern of the app:

- `Wrappers`, `Text`, `Documents`, `RemoteStore`, `Queries`: option and result types, Kotlin
  string operations, typed field reads with defaults, the document store, and query results.
- `RideStatus`, `RideRecord`: ride status codes and the status chain, and the ride document with
  its write/read round trip.
- `Campus`, `FareEstimator`, `BookRide`, `MapSelection`: the campus spots, fare and time estimate,
  the booking screen and the map picker.
- `Auth`, `Login`, `AccountChecks`, `PassengerRegistration`, `DriverRegistration`,
  `PasswordChange`, `PassengerProfile`, `DriverProfile`, `Wallet`: accounts, login routing,
  registration, profile edits and the wallet top-up.
- `RideRequests`, `RideTracking`, `RideRating`, `DriverDashboard`, `RideHistory`: the driver's
  request list, ride tracking, rating, the driver dashboard and the passenger's history.
- `RideEntities`, `RideDao`, `LocalSync`, `SyncWorker`: the local history row, its table, saving
  to it, and the upload worker.

Source paths below are relative to the repository root; the Kotlin package directory is
`app/src/main/java/com/example/campusride/`.

## Model

| member | source | states |
|---|---|---|
| Text.TrimStartSpec | app/src/main/java/com/example/campusride/LoginActivity.kt:289-290 | dropping leading whitespace yields the longest suffix that does not start with whitespace, and everything dropped is whitespace |
| Text.TrimEndSpec | app/src/main/java/com/example/campusride/LoginActivity.kt:289-290 | dropping trailing whitespace yields the longest prefix that does not end with whitespace, and everything dropped is whitespace |
| Text.TrimSpec | app/src/main/java/com/example/campusride/LoginActivity.kt:289-290 | `trim()` yields a contiguous slice of the text with no whitespace at either end; it is empty exactly when the text is all whitespace |
| Text.TrimKeeps | app/src/main/java/com/example/campusride/BookRideActivity.kt:195 | text with no whitespace at either end is left unchanged by `trim()` |
| Text.TrimIdempotent | app/src/main/java/com/example/campusride/BookRideActivity.kt:402-403 | trimming already trimmed text changes nothing |
| Text.ContainsIgnoreCase | app/src/main/java/com/example/campusride/MapSelectionActivity.kt:208-210 | `contains(q, ignoreCase = true)` holds exactly when some window of the text equals `q` up to letter case |
| Text.ReplaceChar | app/src/main/java/com/example/campusride/RideHistoryActivity.kt:152 | `replace("_", " ")` keeps the length and replaces exactly the matching characters |
| Text.CapitalizeFirst | app/src/main/java/com/example/campusride/DriverProfileActivity.kt:127 | `replaceFirstChar { it.uppercase() }` upper-cases the first character and keeps the rest and the length |
| Documents.GetString | app/src/main/java/com/example/campusride/LoginActivity.kt:343-344 | `getString` yields a value exactly when the field holds text, and then that text |
| Documents.GetDouble | app/src/main/java/com/example/campusride/AddMoneyDialogFragment.kt:51 | `getDouble` yields any stored number, a whole number widened, and nothing for an absent or non-numeric field |
| Documents.GetLong | app/src/main/java/com/example/campusride/PassengerProfileActivity.kt:115 | `getLong` yields a stored whole number as it is and a fractional one truncated toward zero: the largest whole number not above a non-negative value, the smallest not below a negative one |
| Documents.GetBoolean | app/src/main/java/com/example/campusride/DriverDashboardActivity.kt:130 | `getBoolean` yields a value exactly when the field holds a flag |
| Documents.GetTimestamp | app/src/main/java/com/example/campusride/RideHistoryActivity.kt:81 | `getTimestamp` yields a value exactly when the field holds a timestamp |
| Documents.Merge | app/src/main/java/com/example/campusride/DriverProfileActivity.kt:171-172 | an `update` writes the given fields and keeps every other field; the keys are the union |
| Documents.MergeAssociative | app/src/main/java/com/example/campusride/DriverProfileActivity.kt:171-172 | two updates in a row equal one update, with the later fields winning |
| RemoteStore.SetDocSpec | app/src/main/java/com/example/campusride/BookRideActivity.kt:459 | a `set` succeeds with the network, then makes the document exactly the given one, and touches no other document |
| RemoteStore.UpdateDocSpec | app/src/main/java/com/example/campusride/DriverProfileActivity.kt:171-172 | an `update` succeeds exactly when the network call does and the document exists; it merges the fields and adds no document |
| RemoteStore.ReadDoc | app/src/main/java/com/example/campusride/LoginActivity.kt:340-342 | a `get` fails exactly when the network does, and finds the stored document exactly when it exists |
| RemoteStore.Store.constructor | app/src/main/java/com/example/campusride/BookRideActivity.kt:110-111 | the store starts from the given documents |
| RemoteStore.Store.Set | app/src/main/java/com/example/campusride/BookRideActivity.kt:459-476 | the store's documents become those of the `set` function, and the result is the network outcome |
| RemoteStore.Store.Update | app/src/main/java/com/example/campusride/DriverDashboardActivity.kt:202-204 | the store's documents and the result are those of the `update` function |
| Queries.DistinctIdsCount | app/src/main/java/com/example/campusride/DriverDashboardActivity.kt:161-162 | a result list with distinct document ids has as many ids as entries |
| Queries.SameQuerySameEntries | app/src/main/java/com/example/campusride/DriverDashboardActivity.kt:157-170 | two runs of one query over the same store return the same entries, each once, in whatever order |
| Queries.CountIsMatchingDocuments | app/src/main/java/com/example/campusride/DriverDashboardActivity.kt:157-163 | the size of a query result is the number of stored documents the query selects |
| RideStatus.Parse | app/src/main/java/com/example/campusride/DriverRideTrackingActivity.kt:98 | every stored code has exactly one well-formed reading, which writes back to the same code; unknown codes read as `Other` |
| RideStatus.ParseCode | app/src/main/java/com/example/campusride/DriverRideTrackingActivity.kt:154-158 | writing a well-formed status and reading it back yields that status |
| RideStatus.CodeInjective | app/src/main/java/com/example/campusride/DriverRideTrackingActivity.kt:154-158 | distinct well-formed statuses are stored as distinct codes |
| RideStatus.Successor | app/src/main/java/com/example/campusride/DriverRideTrackingActivity.kt:69-80 | the next status on the chain searching, assigned, arrived, picked up, completed, rated ranks one higher; there is none off the chain |
| RideStatus.TerminalStatuses | app/src/main/java/com/example/campusride/RideRatingActivity.kt:79-80 | rated and rejected rides have no outgoing transition |
| RideStatus.ChainIsAcyclic | app/src/main/java/com/example/campusride/DriverRideTrackingActivity.kt:114-140 | following successors never returns to an earlier status: k steps raise the rank by exactly k |
| RideRecord.ToDocFields | app/src/main/java/com/example/campusride/BookRideActivity.kt:428-452 | a stored ride has exactly the booking fields, plus `rejectedBy` once rejected |
| RideRecord.FromDoc | app/src/main/java/com/example/campusride/DriverRideTrackingActivity.kt:97-104 | a read ride's status is the stored code, well-formed |
| RideRecord.FromToDoc | app/src/main/java/com/example/campusride/BookRideActivity.kt:428-452 | writing a ride document and reading it back yields the same ride |
| RideRecord.ReadIds | app/src/main/java/com/example/campusride/BookRideActivity.kt:429-430 | ride and passenger ids read back as written |
| RideRecord.ReadPassenger | app/src/main/java/com/example/campusride/BookRideActivity.kt:431-432 | passenger name and email read back as written |
| RideRecord.ReadPlaceNames | app/src/main/java/com/example/campusride/BookRideActivity.kt:433-436 | pickup and drop-off names read back as written |
| RideRecord.ReadPickup | app/src/main/java/com/example/campusride/BookRideActivity.kt:434-435 | pickup coordinates read back as written |
| RideRecord.ReadDropoff | app/src/main/java/com/example/campusride/BookRideActivity.kt:437-438 | drop-off coordinates read back as written |
| RideRecord.ReadFare | app/src/main/java/com/example/campusride/BookRideActivity.kt:439-440 | vehicle type and fare read back as written |
| RideRecord.ReadTrip | app/src/main/java/com/example/campusride/BookRideActivity.kt:441-442 | estimated time and distance read back as written |
| RideRecord.ReadStatus | app/src/main/java/com/example/campusride/BookRideActivity.kt:443-444 | status code and driver id read back as written |
| RideRecord.ReadTimes | app/src/main/java/com/example/campusride/BookRideActivity.kt:450-451 | creation and update times, and the rejecting driver, read back as written |
| RideRecord.ReadDriver | app/src/main/java/com/example/campusride/BookRideActivity.kt:445-446 | driver name and phone read back as written |
| RideRecord.ReadVehicle | app/src/main/java/com/example/campusride/BookRideActivity.kt:447-449 | vehicle model, colour and registration read back as written |
| RideRecord.StateWrite | app/src/main/java/com/example/campusride/DriverRideRequestsActivity.kt:178-190 | an update that touches only lifecycle fields turns a stored ride into the stored form of the updated ride |
| RideRecord.AcceptIsAssign | app/src/main/java/com/example/campusride/DriverRideRequestsActivity.kt:178-190 | merging the accept fields yields the same ride assigned to the driver, with the driver snapshot and the new time |
| RideRecord.RejectIsReject | app/src/main/java/com/example/campusride/DriverRideRequestsActivity.kt:239-246 | merging the reject fields sets the status and the rejecting driver and keeps the driver snapshot |
| RideRecord.StatusUpdateIsStep | app/src/main/java/com/example/campusride/DriverRideTrackingActivity.kt:155-161 | a status step changes the status and the update time and nothing else |
| RideRecord.RatedIsStatusOnly | app/src/main/java/com/example/campusride/RideRatingActivity.kt:79-80 | marking a ride rated changes only its status; its update time is kept |
| Campus.NamesDistinct | app/src/main/java/com/example/campusride/MapSelectionActivity.kt:195-206 | no two campus spots share a name |
| Campus.CoordinatesNonZero | app/src/main/java/com/example/campusride/BookRideActivity.kt:93-104 | no campus spot has a zero coordinate |
| Campus.LatitudesDistinct | app/src/main/java/com/example/campusride/BookRideActivity.kt:92-103 | no two campus spots share a latitude |
| Campus.NamesTrimmed | app/src/main/java/com/example/campusride/BookRideActivity.kt:93-104 | spot names carry no surrounding whitespace |
| Campus.LookupFrom | app/src/main/java/com/example/campusride/BookRideActivity.kt:258-259 | a found spot carries exactly the looked-up name |
| Campus.Lookup | app/src/main/java/com/example/campusride/BookRideActivity.kt:231 | a found spot carries exactly the looked-up name |
| Campus.LookupFromSpec | app/src/main/java/com/example/campusride/BookRideActivity.kt:258-259 | the lookup finds a spot exactly when the table lists that name, and the spot it finds is in the table |
| Campus.LookupSpec | app/src/main/java/com/example/campusride/BookRideActivity.kt:231 | `containsKey` holds exactly when a spot has that name, and the found spot is a campus spot |
| Campus.LookupFindsEachSpot | app/src/main/java/com/example/campusride/BookRideActivity.kt:258-269 | every listed name finds its own spot |
| Campus.SearchFrom | app/src/main/java/com/example/campusride/MapSelectionActivity.kt:208-210 | the first position whose name contains the query ignoring case; no earlier one matches; none means no position matches |
| Campus.Search | app/src/main/java/com/example/campusride/MapSelectionActivity.kt:194-210 | the first spot in table order whose name contains the query ignoring case; nothing exactly when no spot matches |
| Campus.SearchFindsFullName | app/src/main/java/com/example/campusride/MapSelectionActivity.kt:208-210 | searching for a spot's full name always finds a spot |
| FareEstimator.BaseFare | app/src/main/java/com/example/campusride/BookRideActivity.kt:356-360 | Premium costs 40.0, Group 60.0, every other type 25.0 |
| FareEstimator.BaseFareAtLeastStandard | app/src/main/java/com/example/campusride/BookRideActivity.kt:356-360 | no vehicle type costs less than Standard |
| FareEstimator.Fare | app/src/main/java/com/example/campusride/BookRideActivity.kt:362-363 | the fare is the base fare plus 5.0 per kilometre, so never below the base |
| FareEstimator.Minutes | app/src/main/java/com/example/campusride/BookRideActivity.kt:364 | the time lies in 3..120; strictly inside that range it is the whole part of distance / 0.5 |
| FareEstimator.MinutesMonotone | app/src/main/java/com/example/campusride/BookRideActivity.kt:364 | a longer trip never gets fewer minutes |
| FareEstimator.MinutesTruncate | app/src/main/java/com/example/campusride/BookRideActivity.kt:364 | `toInt()` truncates: 2.25 km is 4 minutes; 1 km is clamped up to 3 and 60 km down to 120 |
| FareEstimator.CalculateSpec | app/src/main/java/com/example/campusride/BookRideActivity.kt:341-368 | without all four coordinates the estimate is reset to zero; with them the fare is the base fare plus distance cost and the time is `Minutes` |
| FareEstimator.PositiveFareIffComplete | app/src/main/java/com/example/campusride/BookRideActivity.kt:346-363 | the fare is positive exactly when all four coordinates are set |
| FareEstimator.FareOrderedByBase | app/src/main/java/com/example/campusride/BookRideActivity.kt:356-364 | for the same trip a dearer base fare gives a dearer estimate and the same time |
| BookRide.SuggestionsArePermutation | app/src/main/java/com/example/campusride/BookRideActivity.kt:143-144 | the suggestion list holds every campus spot exactly once |
| BookRide.TwoSpotsComplete | app/src/main/java/com/example/campusride/BookRideActivity.kt:228-233 | typing two campus names sets all four coordinates |
| BookRide.Recalculated | app/src/main/java/com/example/campusride/BookRideActivity.kt:341-368 | the recomputed estimate matches the form's coordinates and vehicle type, and is positive exactly when the coordinates are complete |
| BookRide.Edited | app/src/main/java/com/example/campusride/BookRideActivity.kt:192-243 | after a text edit the estimate is current, and the vehicle selection is unchanged |
| BookRide.Replied | app/src/main/java/com/example/campusride/BookRideActivity.kt:288-337 | after a place-search reply the estimate is current; a miss or an error withdraws it |
| BookRide.Placed | app/src/main/java/com/example/campusride/BookRideActivity.kt:50-69 | after a map result the side holds the chosen point and the estimate is current |
| BookRide.VehicleChosen | app/src/main/java/com/example/campusride/BookRideActivity.kt:183-187 | choosing a vehicle type keeps the coordinates, selects the type and recomputes the estimate |
| BookRide.Restored | app/src/main/java/com/example/campusride/BookRideActivity.kt:488-510 | restoring saved inputs displays the saved type but keeps pricing by the selected type; the estimate is current |
| BookRide.RecalculateConsistent | app/src/main/java/com/example/campusride/BookRideActivity.kt:341-368 | recomputing a current estimate changes nothing |
| BookRide.TwoSpotsEnableBooking | app/src/main/java/com/example/campusride/BookRideActivity.kt:228-233 | typing two campus names (with any surrounding blanks) yields a positive fare |
| BookRide.ClearingWithdrawsEstimate | app/src/main/java/com/example/campusride/BookRideActivity.kt:200-204 | clearing either field resets the estimate to zero |
| BookRide.RestoreKeepsPricing | app/src/main/java/com/example/campusride/BookRideActivity.kt:492 | after a restore the estimate is priced with the type selected before, not the saved one displayed |
| BookRide.OverwriteAfterEdit | app/src/main/java/com/example/campusride/BookRideActivity.kt:59-61 | setting a side after the edit it triggered leaves only the set point |
| BookRide.SameSpotTrimmed | app/src/main/java/com/example/campusride/BookRideActivity.kt:195 | a name the lookup finds is already trimmed |
| BookRide.ValidateBooking | app/src/main/java/com/example/campusride/BookRideActivity.kt:402-423 | booking is allowed exactly with both names, different names, a positive fare and a signed-in user; each refusal reason holds exactly in its case, checked in that order |
| BookRide.PassengerName | app/src/main/java/com/example/campusride/BookRideActivity.kt:431 | the passenger name is the display name, else the email, else "Passenger" |
| BookRide.NewRide | app/src/main/java/com/example/campusride/BookRideActivity.kt:428-452 | a new ride is searching, has no driver, is stamped `now` twice and carries the estimate and the vehicle type |
| BookRide.BookedRideReadsBack | app/src/main/java/com/example/campusride/BookRideActivity.kt:443-444 | a booked ride reads back as itself, with status "searching" and an empty driver id |
| BookRide.BookRideScreen.constructor | app/src/main/java/com/example/campusride/BookRideActivity.kt:106-118 | the screen starts with empty fields, Standard selected, no coordinates and no estimate |
| BookRide.BookRideScreen.CalculateFareAndTime | app/src/main/java/com/example/campusride/BookRideActivity.kt:341-368 | the screen's state becomes the recalculated form |
| BookRide.BookRideScreen.SetSide | app/src/main/java/com/example/campusride/BookRideActivity.kt:258-269 | only the chosen side's coordinates change |
| BookRide.BookRideScreen.SetText | app/src/main/java/com/example/campusride/BookRideActivity.kt:59 | only the chosen field's text changes |
| BookRide.BookRideScreen.EditLocation | app/src/main/java/com/example/campusride/BookRideActivity.kt:192-226 | the state becomes `Edited`, and a place search is requested exactly as `LookupAfterEdit` says |
| BookRide.BookRideScreen.ReactToLocation | app/src/main/java/com/example/campusride/BookRideActivity.kt:228-243 | a campus name sets its point, an unset side asks the place search, otherwise the estimate is recomputed |
| BookRide.BookRideScreen.ApplyPlaceReply | app/src/main/java/com/example/campusride/BookRideActivity.kt:288-337 | the state becomes `Replied` |
| BookRide.BookRideScreen.ApplyMapResult | app/src/main/java/com/example/campusride/BookRideActivity.kt:50-69 | the state becomes `Placed`, and the place search it may trigger is reported |
| BookRide.ShownPositionAtMostListed | app/src/main/java/com/example/campusride/BookRideActivity.kt:150-151 | a position in the filtered dropdown is also a position of the full suggestion list |
| BookRide.BookRideScreen.ChooseSuggestion | app/src/main/java/com/example/campusride/BookRideActivity.kt:154-166 | clicking entry `position` of the shown dropdown writes the clicked spot's name, but the point of the spot at `position` of the unfiltered list, and recomputes the estimate |
| BookRide.BookRideScreen.ChooseShownSuggestion | app/src/main/java/com/example/campusride/BookRideActivity.kt:154-166 | the intended click: the clicked spot's name and its point |
| BookRide.ClickedNameAndPoint | app/src/main/java/com/example/campusride/BookRideActivity.kt:154-166 | after a click, the field names a campus spot, and the side holds that spot's point exactly when the clicked and the indexed suggestion are the same |
| BookRide.ClickLocatesIffUnshifted | app/src/main/java/com/example/campusride/BookRideActivity.kt:154-166 | the click as written locates the clicked spot exactly when its dropdown position equals its list position |
| BookRide.FilteredClickMislocates | app/src/main/java/com/example/campusride/BookRideActivity.kt:154-166 | after typing "S", clicking "Science Building" leaves that name in the field with Student Center's point |
| BookRide.ShownClickLocates | app/src/main/java/com/example/campusride/BookRideActivity.kt:154-166 | the intended click always leaves the field naming the spot whose point the side holds |
| BookRide.BookRideScreen.WriteThenLocate | app/src/main/java/com/example/campusride/BookRideActivity.kt:246-253 | text written into a field runs its watcher, then the side's point is set and the estimate recomputed |
| BookRide.BookRideScreen.UseCurrentLocation | app/src/main/java/com/example/campusride/BookRideActivity.kt:246-253 | the pickup becomes "Student Center" at its point |
| BookRide.BookRideScreen.ChooseVehicleType | app/src/main/java/com/example/campusride/BookRideActivity.kt:183-187 | the state becomes `VehicleChosen` for that dropdown entry |
| BookRide.BookRideScreen.RestoreSavedInputs | app/src/main/java/com/example/campusride/BookRideActivity.kt:488-510 | the state becomes `Restored`; each of the two text writes reports the place search its watcher triggers, the drop-off one computed after the pickup edit |
| BookRide.BookRideScreen.Book | app/src/main/java/com/example/campusride/BookRideActivity.kt:401-477 | a refused check writes nothing; otherwise exactly the new ride document is set, and the outcome is the network result |
| BookRide.EnabledIffComplete | app/src/main/java/com/example/campusride/BookRideActivity.kt:391-395 | the book button is enabled exactly when all four coordinates are set |
| BookRide.FareCheckIsCoordinateCheck | app/src/main/java/com/example/campusride/BookRideActivity.kt:415-418 | with two different names, the fare check fails exactly when a coordinate is missing |
| MapSelection.PlaceName | app/src/main/java/com/example/campusride/MapSelectionActivity.kt:124-149 | the name is the first address's thoroughfare, else feature name, else locality, else address line, else "Unknown Location"; "Selected Location" with no address or an error |
| MapSelection.PlaceNameUsesFirstAddress | app/src/main/java/com/example/campusride/MapSelectionActivity.kt:128-130 | later addresses never change the name |
| MapSelection.PlaceNameOrigin | app/src/main/java/com/example/campusride/MapSelectionActivity.kt:131-148 | the name is one of the first address's fields or one of the two fixed defaults |
| MapSelection.SpotNameAt | app/src/main/java/com/example/campusride/MapSelectionActivity.kt:215 | a name found for a point belongs to a spot at that point |
| MapSelection.SpotNameAtOwnPoint | app/src/main/java/com/example/campusride/MapSelectionActivity.kt:215 | the name found back from a spot's point is its own |
| MapSelection.CampusMatchShowsItsName | app/src/main/java/com/example/campusride/MapSelectionActivity.kt:212-215 | the search field receives the matched spot's own name |
| MapSelection.MapSelectionScreen.constructor | app/src/main/java/com/example/campusride/MapSelectionActivity.kt:67-74 | nothing is selected, no name is shown and the search field is empty |
| MapSelection.MapSelectionScreen.Tap | app/src/main/java/com/example/campusride/MapSelectionActivity.kt:118-155 | a tap selects the point, names it by `PlaceName`, shows the name and enables confirm |
| MapSelection.MapSelectionScreen.CurrentLocation | app/src/main/java/com/example/campusride/MapSelectionActivity.kt:101-106 | the current-location button taps (-26.2041, 28.0473) |
| MapSelection.MapSelectionScreen.Search | app/src/main/java/com/example/campusride/MapSelectionActivity.kt:109-222 | blank text changes nothing, the selection and its name included; a geocoder hit is tapped, its name shown; otherwise the first campus match is tapped, its name shown; with no match "Location not found" shows, confirm is disabled and the selection is kept |
| MapSelection.MapSelectionScreen.Confirm | app/src/main/java/com/example/campusride/MapSelectionActivity.kt:224-235 | a result is returned exactly while confirm is enabled and a point is selected: the name and the point |
| Login.ValidateLogin | app/src/main/java/com/example/campusride/LoginActivity.kt:288-301 | trimmed credentials are accepted exactly when the email is not empty and the password has at least 6 characters; missing text is reported first |
| Login.SubmittedCredentialsTrimmed | app/src/main/java/com/example/campusride/LoginActivity.kt:289-290 | accepted credentials carry no surrounding whitespace |
| Login.DriverVerdict | app/src/main/java/com/example/campusride/LoginActivity.kt:342-366 | a driver document routes to the dashboard when its type is "driver" (default) and its status is "approved" or "active"; another type is a mismatch; otherwise approval is awaited, showing the status (default "pending") |
| Login.PassengerVerdict | app/src/main/java/com/example/campusride/LoginActivity.kt:371-382 | a passenger document routes to the passenger dashboard exactly when its type is "passenger" (default) |
| Login.Route | app/src/main/java/com/example/campusride/LoginActivity.kt:329-411 | no user id is reported as such; the driver dashboard needs a driver document; the passenger dashboard needs no driver document and a passenger document |
| Login.DriverDocumentDecides | app/src/main/java/com/example/campusride/LoginActivity.kt:340-367 | with a driver document the route is that document's verdict |
| Login.PassengerSideIgnored | app/src/main/java/com/example/campusride/LoginActivity.kt:340-367 | two stores whose driver documents have the same verdict route alike, whatever their passenger documents say |
| Login.DriverDashboardNeedsApproval | app/src/main/java/com/example/campusride/LoginActivity.kt:343-351 | reaching the driver dashboard implies a stored status "approved" or "active"; a missing status never suffices |
| Login.PassengerDashboardNeedsPassengerDoc | app/src/main/java/com/example/campusride/LoginActivity.kt:368-379 | reaching the passenger dashboard implies no driver document and a passenger document of passenger type |
| Login.NotFoundIffNoDocuments | app/src/main/java/com/example/campusride/LoginActivity.kt:383-395 | "account not found" holds exactly when both reads succeed and neither document exists |
| Login.AfterRoute | app/src/main/java/com/example/campusride/LoginActivity.kt:360-362 | the session survives exactly when there is a user and the verdict does not sign out |
| Login.RefusedInputNeverSubmitted | app/src/main/java/com/example/campusride/LoginActivity.kt:293-301 | refused input ends in its refusal, keeps the session and never reaches the authentication service |
| Login.OnlyTrimmedCredentialsSubmitted | app/src/main/java/com/example/campusride/LoginActivity.kt:306 | only the trimmed credentials are sent to the service |
| Login.RoutedSessionKept | app/src/main/java/com/example/campusride/LoginActivity.kt:348-410 | a routed attempt keeps the session only for a dashboard or a failed lookup |
| Login.RegistrationTarget | app/src/main/java/com/example/campusride/LoginActivity.kt:262-266 | "driver" selects the driver form; anything else selects the passenger form |
| Login.NewGoogleAccountRegisters | app/src/main/java/com/example/campusride/LoginActivity.kt:230-233 | a new Google account is sent to registration for the selected type, its email prefilled, whatever is stored |
| Login.GoogleRoutesLikeEmail | app/src/main/java/com/example/campusride/LoginActivity.kt:234-237 | an existing Google account is routed exactly like an email sign-in of the same user |
| Login.LoginScreen.constructor | app/src/main/java/com/example/campusride/LoginActivity.kt:109-116 | "driver" is selected, and a prefilled email is shown |
| Login.LoginScreen.SelectUserType | app/src/main/java/com/example/campusride/LoginActivity.kt:157-165 | the buttons select "driver" or "passenger" and change nothing else |
| Login.LoginScreen.EnterCredentials | app/src/main/java/com/example/campusride/LoginActivity.kt:289-290 | typing changes only the two fields |
| Login.LoginScreen.LoginWithEmailPassword | app/src/main/java/com/example/campusride/LoginActivity.kt:288-327 | the outcome and the session are those of `EmailLogin` |
| Login.LoginScreen.SignInWithGoogle | app/src/main/java/com/example/campusride/LoginActivity.kt:219-260 | the outcome and the session are those of `GoogleLogin` |
| Login.LoginScreen.ForgotPassword | app/src/main/java/com/example/campusride/LoginActivity.kt:453-464 | a reset request is sent exactly when the email text is not blank, and it goes to the trimmed email |
| AccountChecks.RegistrationPasswordCheck | app/src/main/java/com/example/campusride/PassengerRegistrationActivity.kt:165-178 | passwords pass exactly with at least 6 characters and a matching confirmation; emptiness is reported first, then length |
| AccountChecks.AnyEndsWith | app/src/main/java/com/example/campusride/PassengerRegistrationActivity.kt:253 | the email ends with some listed domain, ignoring case |
| AccountChecks.AnyEndsWithIgnoresCase | app/src/main/java/com/example/campusride/DriverRegistrationActivity.kt:232 | two spellings of one address differing only in case get the same answer |
| AccountChecks.SaveProfile | app/src/main/java/com/example/campusride/PassengerRegistrationActivity.kt:189-201 | with a user id and a working network exactly the profile is written; an empty id writes nothing |
| AccountChecks.Enrol | app/src/main/java/com/example/campusride/PassengerRegistrationActivity.kt:189-233 | an enrolment writes exactly the new document; a failed save rolls back only accounts not made through Google; a failed creation writes nothing |
| AccountChecks.NoAccountWithoutProfile | app/src/main/java/com/example/campusride/PassengerRegistrationActivity.kt:301-313 | a created account ends with its document stored or is deleted |
| PassengerRegistration.EmailValid | app/src/main/java/com/example/campusride/PassengerRegistrationActivity.kt:236-258 | a Google account needs the pattern only; any other address also needs one of the twelve domains, ignoring case |
| PassengerRegistration.Validate | app/src/main/java/com/example/campusride/PassengerRegistrationActivity.kt:143-184 | the trimmed form is accepted exactly with six filled fields, passwords passing (except for Google) and a valid email; missing fields are reported first |
| PassengerRegistration.Record | app/src/main/java/com/example/campusride/PassengerRegistrationActivity.kt:269-283 | the new document has type "passenger", status "active", wallet 100.0, no rides and rating 0.0 |
| PassengerRegistration.RecordFields | app/src/main/java/com/example/campusride/PassengerRegistrationActivity.kt:269-283 | the document holds exactly its thirteen fields; the password is not stored |
| PassengerRegistration.RegisterWritesOnlyRecord | app/src/main/java/com/example/campusride/PassengerRegistrationActivity.kt:143-235 | only a completed enrolment writes, and then exactly the new passenger document |
| PassengerRegistration.GoogleWithoutIdWritesNothing | app/src/main/java/com/example/campusride/PassengerRegistrationActivity.kt:189-201 | a Google registration without a user id writes nothing |
| PassengerRegistration.GoogleSkipsPasswordAndDomains | app/src/main/java/com/example/campusride/PassengerRegistrationActivity.kt:164-184 | for a Google account with all fields filled, the pattern alone decides |
| PassengerRegistration.RegisteredPassengerLogsIn | app/src/main/java/com/example/campusride/PassengerRegistrationActivity.kt:269-299 | a new passenger without a driver document is routed to the passenger dashboard at login |
| DriverRegistration.Validate | app/src/main/java/com/example/campusride/DriverRegistrationActivity.kt:139-182 | the trimmed form is accepted exactly with nine filled fields, passwords passing (except for Google) and a listed domain; missing fields are reported first |
| DriverRegistration.DomainsWithinPassengerDomains | app/src/main/java/com/example/campusride/DriverRegistrationActivity.kt:227-231 | the driver domains are the passenger domains without "@googlemail.com" |
| DriverRegistration.Record | app/src/main/java/com/example/campusride/DriverRegistrationActivity.kt:247-265 | the new document has type "driver", status "approved", offline, no rides or earnings and rating 0.0 |
| DriverRegistration.RecordFields | app/src/main/java/com/example/campusride/DriverRegistrationActivity.kt:247-265 | the document holds exactly its seventeen fields; the password is not stored |
| DriverRegistration.RegisterWritesOnlyRecord | app/src/main/java/com/example/campusride/DriverRegistrationActivity.kt:139-224 | only a completed enrolment writes, and then exactly the new driver document |
| DriverRegistration.GoogleWithoutIdWritesNothing | app/src/main/java/com/example/campusride/DriverRegistrationActivity.kt:187-197 | a Google registration without a user id writes nothing |
| DriverRegistration.RollbackOnlyWithoutGoogle | app/src/main/java/com/example/campusride/DriverRegistrationActivity.kt:280-291 | a failed save deletes the account exactly when it was not made through Google |
| DriverRegistration.RegisteredDriverLogsIn | app/src/main/java/com/example/campusride/DriverRegistrationActivity.kt:258-260 | a new driver is approved at once and routed to the driver dashboard at login |
| PasswordChange.ChangePassword | app/src/main/java/com/example/campusride/DriverProfileActivity.kt:207-250 | empty fields, then a mismatch, then a short password are refused, each exactly in its case; the password is sent exactly when all checks pass; without an email nothing happens |
| PasswordChange.CheckOrderDiffersFromRegistration | app/src/main/java/com/example/campusride/PassengerProfileActivity.kt:193-237 | "abc"/"abd" is reported as a mismatch here but as too short at registration |
| PasswordChange.SameAcceptedPasswords | app/src/main/java/com/example/campusride/PassengerProfileActivity.kt:193-237 | both check orders accept exactly the same new passwords |
| PassengerProfile.FormOf | app/src/main/java/com/example/campusride/PassengerProfileActivity.kt:106-111 | the form shows each stored text field, or an empty one when absent |
| PassengerProfile.UpdateMap | app/src/main/java/com/example/campusride/PassengerProfileActivity.kt:130-160 | an update map exists exactly when the five trimmed fields are all filled |
| PassengerProfile.UpdateMapReadsBack | app/src/main/java/com/example/campusride/PassengerProfileActivity.kt:130-160 | the update map loads back as the trimmed edits |
| PassengerProfile.UpdateMapFields | app/src/main/java/com/example/campusride/PassengerProfileActivity.kt:130-160 | the update names exactly the five editable fields |
| PassengerProfile.StatsOf | app/src/main/java/com/example/campusride/PassengerProfileActivity.kt:114-116 | balance, ride count and rating default to 0.0, 0 and 0.0 |
| PassengerProfile.StatsOfAgree | app/src/main/java/com/example/campusride/PassengerProfileActivity.kt:114-116 | documents that agree on the three fields show the same stats |
| PassengerProfile.NewPassengerStats | app/src/main/java/com/example/campusride/PassengerRegistrationActivity.kt:280-282 | a new passenger shows 100.0, 0 rides and 0.0 |
| PassengerProfile.UpdateProfile | app/src/main/java/com/example/campusride/PassengerProfileActivity.kt:130-170 | the update succeeds exactly with a user, five filled fields, the network and an existing document; otherwise nothing changes |
| PassengerProfile.UpdateIsMerge | app/src/main/java/com/example/campusride/PassengerProfileActivity.kt:130-170 | a successful update merges the update map into the stored document |
| PassengerProfile.FormOfMerge | app/src/main/java/com/example/campusride/PassengerProfileActivity.kt:106-111 | after merging all five fields the form shows the merged values |
| PassengerProfile.UpdateReadsBack | app/src/main/java/com/example/campusride/PassengerProfileActivity.kt:97-170 | after a successful update the form loads the submitted trimmed values |
| PassengerProfile.UpdateKeepsOtherFields | app/src/main/java/com/example/campusride/PassengerProfileActivity.kt:130-170 | every field other than the five is untouched |
| PassengerProfile.UpdateKeepsStats | app/src/main/java/com/example/campusride/PassengerProfileActivity.kt:114-116 | editing the profile never changes the shown balance, ride count or rating |
| DriverProfile.FormOf | app/src/main/java/com/example/campusride/DriverProfileActivity.kt:114-123 | the form shows each stored text field, or an empty one when absent |
| DriverProfile.UpdateMap | app/src/main/java/com/example/campusride/DriverProfileActivity.kt:140-169 | an update map exists exactly when the eight trimmed fields are all filled |
| DriverProfile.UpdateMapReadsBack | app/src/main/java/com/example/campusride/DriverProfileActivity.kt:140-169 | the update map loads back as the trimmed edits |
| DriverProfile.UpdateMapFields | app/src/main/java/com/example/campusride/DriverProfileActivity.kt:160-169 | the update names exactly the eight editable fields |
| DriverProfile.ShownStatus | app/src/main/java/com/example/campusride/DriverProfileActivity.kt:126-127 | the shown status is the stored one, or "pending", with its first letter upper-cased |
| DriverProfile.MissingStatusShowsPending | app/src/main/java/com/example/campusride/DriverProfileActivity.kt:126-127 | a document without a status shows "Pending" |
| DriverProfile.NewDriverShowsApproved | app/src/main/java/com/example/campusride/DriverRegistrationActivity.kt:260 | a newly registered driver shows "Approved" |
| DriverProfile.UpdateProfile | app/src/main/java/com/example/campusride/DriverProfileActivity.kt:137-183 | the update succeeds exactly with a user, eight filled fields, the network and an existing document; otherwise nothing changes |
| DriverProfile.UpdateIsMerge | app/src/main/java/com/example/campusride/DriverProfileActivity.kt:171-172 | a successful update merges the update map into the stored document |
| DriverProfile.FormOfMerge | app/src/main/java/com/example/campusride/DriverProfileActivity.kt:114-123 | after merging all eight fields the form shows the merged values |
| DriverProfile.UpdateReadsBack | app/src/main/java/com/example/campusride/DriverProfileActivity.kt:105-183 | after a successful update the form loads the submitted trimmed values |
| DriverProfile.UpdateKeepsOtherFields | app/src/main/java/com/example/campusride/DriverProfileActivity.kt:160-172 | email, status, online flag and counters are untouched |
| DriverProfile.MergeKeepsVerdict | app/src/main/java/com/example/campusride/LoginActivity.kt:343-344 | merging fields other than type and status keeps a driver document's login verdict |
| DriverProfile.UpdateKeepsVerdict | app/src/main/java/com/example/campusride/DriverProfileActivity.kt:160-172 | a profile edit keeps the driver document's login verdict |
| DriverProfile.UpdateKeepsLoginRoute | app/src/main/java/com/example/campusride/DriverProfileActivity.kt:160-172 | a profile edit never changes where the driver's next login leads |
| Wallet.AmountToAdd | app/src/main/java/com/example/campusride/AddMoneyDialogFragment.kt:27-34 | an amount is added exactly when the text is not empty and parses to a positive number; unparsable text counts as 0 |
| Wallet.AddMoneyDialog.constructor | app/src/main/java/com/example/campusride/AddMoneyDialogFragment.kt:17-42 | the dialog starts out showing |
| Wallet.AddMoneyDialog.OnAdd | app/src/main/java/com/example/campusride/AddMoneyDialogFragment.kt:27-36 | "Add" yields `AmountToAdd` and dismisses the dialog in every case |
| Wallet.AddMoneyDialog.OnCancel | app/src/main/java/com/example/campusride/AddMoneyDialogFragment.kt:37-39 | "Cancel" dismisses the dialog |
| Wallet.TopUp | app/src/main/java/com/example/campusride/AddMoneyDialogFragment.kt:45-62 | without a user nothing happens; the top-up succeeds exactly with the network and an existing document, and the new balance is the stored one (0.0 if absent) plus the amount |
| Wallet.TopUpWritesBalanceOnly | app/src/main/java/com/example/campusride/AddMoneyDialogFragment.kt:49-53 | a top-up stores the new balance, raises it for a positive amount, and changes no other field or document |
| Wallet.TopUpsAdd | app/src/main/java/com/example/campusride/AddMoneyDialogFragment.kt:49-53 | two successful top-ups add both amounts |
| Wallet.TopUpSeenOnProfile | app/src/main/java/com/example/campusride/PassengerProfileActivity.kt:114-116 | the profile then shows the new balance with the same ride count and rating |
| RideRequests.RequestOf | app/src/main/java/com/example/campusride/DriverRideRequestsActivity.kt:90-101 | a request reads each field with its default: "Passenger", "", 0.0, 0, "Standard" |
| RideRequests.RequestOfBookedRide | app/src/main/java/com/example/campusride/DriverRideRequestsActivity.kt:90-101 | a booked ride is listed with exactly the values it was booked with |
| RideRequests.RequestsOf | app/src/main/java/com/example/campusride/DriverRideRequestsActivity.kt:88-103 | one request per result document, in the same order |
| RideRequests.ListedNewestFirst | app/src/main/java/com/example/campusride/DriverRideRequestsActivity.kt:77-103 | requests listed from the searching-rides query are distinct rides, newest first |
| RideRequests.OpenGate | app/src/main/java/com/example/campusride/DriverRideRequestsActivity.kt:60-75 | the list opens exactly for a signed-in driver whose profile says online; a missing flag or document means offline |
| RideRequests.SnapshotOf | app/src/main/java/com/example/campusride/DriverRideRequestsActivity.kt:172-176 | an accept copies the driver's name (default "Driver"), phone and vehicle (default "") |
| RideRequests.AcceptEffect | app/src/main/java/com/example/campusride/DriverRideRequestsActivity.kt:154-228 | an accept succeeds exactly with a user, a readable driver profile, the network and an existing ride; on any other outcome, a failed write included, the store is unchanged |
| RideRequests.RejectEffect | app/src/main/java/com/example/campusride/DriverRideRequestsActivity.kt:230-273 | a reject succeeds exactly with a user, the network and an existing ride; otherwise nothing changes |
| RideRequests.RideRequestsScreen.constructor | app/src/main/java/com/example/campusride/DriverRideRequestsActivity.kt:57-58 | the list starts empty |
| RideRequests.RideRequestsScreen.OnSnapshot | app/src/main/java/com/example/campusride/DriverRideRequestsActivity.kt:80-107 | an error keeps the list; a delivery replaces it with `RequestsOf` |
| RideRequests.RideRequestsScreen.AcceptRide | app/src/main/java/com/example/campusride/DriverRideRequestsActivity.kt:154-228 | the store changes as `AcceptEffect` says; a history row "driver_assigned" is saved and a sync queued exactly after success for a ride with a passenger |
| RideRequests.RideRequestsScreen.RejectRide | app/src/main/java/com/example/campusride/DriverRideRequestsActivity.kt:230-273 | the store changes as `RejectEffect` says; a history row "rejected" is saved and a sync queued exactly after success for a ride with a passenger |
| RideRequests.AcceptAssigns | app/src/main/java/com/example/campusride/DriverRideRequestsActivity.kt:178-190 | an accept turns the stored ride into the same ride assigned to the caller, whatever its status was |
| RideRequests.LastAcceptWins | app/src/main/java/com/example/campusride/DriverRideRequestsActivity.kt:178-190 | when two drivers accept in turn, both succeed and the second driver's assignment is what stays |
| RideRequests.AcceptNeedsProfile | app/src/main/java/com/example/campusride/DriverRideRequestsActivity.kt:166-170 | an accept without a driver profile changes nothing |
| RideRequests.RejectKeepsSnapshot | app/src/main/java/com/example/campusride/DriverRideRequestsActivity.kt:239-246 | a reject records the rejecting driver and keeps the ride's driver fields |
| RideTracking.ButtonsFor | app/src/main/java/com/example/campusride/DriverRideTrackingActivity.kt:114-140 | the four listed codes set the buttons, with at most one enabled, and a button is enabled exactly when it writes the status's successor; other codes leave them |
| RideTracking.OffersOnlySuccessor | app/src/main/java/com/example/campusride/DriverRideTrackingActivity.kt:69-140 | for a status that sets the buttons, a button is enabled exactly when it writes that status's successor |
| RideTracking.CompletedOffersNothing | app/src/main/java/com/example/campusride/DriverRideTrackingActivity.kt:130-133 | a completed ride has no button enabled |
| RideTracking.StatusText | app/src/main/java/com/example/campusride/DriverRideTrackingActivity.kt:143-152 | codes outside the five with fixed text are shown as they are |
| RideTracking.StatusTextVerbatim | app/src/main/java/com/example/campusride/DriverRideTrackingActivity.kt:143-152 | a code is shown verbatim exactly when it is not one of the five |
| RideTracking.ShownStatus | app/src/main/java/com/example/campusride/DriverRideTrackingActivity.kt:98 | a missing status counts as "driver_assigned" |
| RideTracking.OpensFor | app/src/main/java/com/example/campusride/DriverRideTrackingActivity.kt:43-48 | the screen opens exactly for a non-empty ride id |
| RideTracking.DriverRideTrackingScreen.constructor | app/src/main/java/com/example/campusride/DriverRideTrackingActivity.kt:43-53 | the screen keeps its ride id and the layout's buttons |
| RideTracking.DriverRideTrackingScreen.OnRideSnapshot | app/src/main/java/com/example/campusride/DriverRideTrackingActivity.kt:97-141 | the status text and the buttons follow the delivered document in any prior button state; at most one button is enabled afterwards whenever the status sets the buttons or at most one was enabled before |
| RideTracking.DriverRideTrackingScreen.UpdateRideStatus | app/src/main/java/com/example/campusride/DriverRideTrackingActivity.kt:154-194 | the store changes as the status update says; a "completed" history row is saved and a sync queued exactly after a successful completion whose re-read names a passenger |
| RideTracking.CompletionSaves | app/src/main/java/com/example/campusride/DriverRideTrackingActivity.kt:166-174 | the re-read leads to a save exactly when it succeeds and names a non-empty passenger |
| RideTracking.PressMovesOneStep | app/src/main/java/com/example/campusride/DriverRideTrackingActivity.kt:154-161 | pressing an enabled button moves a stored ride one step along the chain and changes nothing else |
| RideRating.OpensFor | app/src/main/java/com/example/campusride/RideRatingActivity.kt:32-39 | the screen opens exactly with a non-empty ride id and a non-empty driver id |
| RideRating.RatingRecord | app/src/main/java/com/example/campusride/RideRatingActivity.kt:67-74 | the record stores the stars and the trimmed feedback |
| RideRating.RatingRecordFields | app/src/main/java/com/example/campusride/RideRatingActivity.kt:67-74 | the record holds exactly its six fields |
| RideRating.SubmitEffect | app/src/main/java/com/example/campusride/RideRatingActivity.kt:57-92 | no user or zero stars writes nothing, each exactly in its case; a failed record write writes nothing |
| RideRating.RideRatingScreen.constructor | app/src/main/java/com/example/campusride/RideRatingActivity.kt:32-43 | the screen keeps its ride and driver ids |
| RideRating.RideRatingScreen.SubmitRating | app/src/main/java/com/example/campusride/RideRatingActivity.kt:57-92 | the store and outcome are those of `SubmitEffect` |
| RideRating.SubmitWrites | app/src/main/java/com/example/campusride/RideRatingActivity.kt:76-80 | both writes succeeding store the record under the ride's id and merge the status into the ride |
| RideRating.SubmittedRatesRide | app/src/main/java/com/example/campusride/RideRatingActivity.kt:76-80 | the stored ride becomes the same ride rated, its update time kept |
| RideRating.ResubmissionOverwrites | app/src/main/java/com/example/campusride/RideRatingActivity.kt:76-77 | submitting twice keeps only the second rating |
| RideRating.NoStatusWithoutRecord | app/src/main/java/com/example/campusride/RideRatingActivity.kt:76-91 | the ride is never marked rated when the record could not be stored |
| DriverDashboard.SumOf | app/src/main/java/com/example/campusride/DriverDashboardActivity.kt:172-176 | the sum of a numeric field over query results, a missing value counting 0.0 |
| DriverDashboard.SumAtLeast | app/src/main/java/com/example/campusride/DriverDashboardActivity.kt:172-176 | values all at least `lo` sum to at least n times `lo` |
| DriverDashboard.SumAtMost | app/src/main/java/com/example/campusride/DriverDashboardActivity.kt:188-192 | values all at most `hi` sum to at most n times `hi` |
| DriverDashboard.TotalOf | app/src/main/java/com/example/campusride/DriverDashboardActivity.kt:172-176 | the loop total equals `SumOf` |
| DriverDashboard.AverageRating | app/src/main/java/com/example/campusride/DriverDashboardActivity.kt:185-195 | 0.0 with no ratings, otherwise the sum divided by their number |
| DriverDashboard.AverageWithinBounds | app/src/main/java/com/example/campusride/DriverDashboardActivity.kt:188-193 | ratings within [lo, hi] give an average within [lo, hi] |
| DriverDashboard.SumOfAppend | app/src/main/java/com/example/campusride/DriverDashboardActivity.kt:172-176 | the sum over two lists one after the other is the sum of the two sums |
| DriverDashboard.SumWithout | app/src/main/java/com/example/campusride/DriverDashboardActivity.kt:172-176 | a sum is the sum without one entry plus that entry's amount |
| DriverDashboard.SameEntriesSameSum | app/src/main/java/com/example/campusride/DriverDashboardActivity.kt:172-176 | two lists of the same distinct entries have the same sum, whatever their order |
| DriverDashboard.CountAndEarningsAgree | app/src/main/java/com/example/campusride/DriverDashboardActivity.kt:157-177 | the count query and the earnings query, run separately, cover the same completed rides: equal sizes, the number of such rides in the store, and equal fare sums |
| DriverDashboard.EarningsNonNegative | app/src/main/java/com/example/campusride/DriverDashboardActivity.kt:172-176 | earnings are never negative while every fare is non-negative |
| DriverDashboard.SetOnline | app/src/main/java/com/example/campusride/DriverDashboardActivity.kt:199-242 | the toggle succeeds exactly with a user, the network and an existing driver document; otherwise nothing changes |
| DriverDashboard.SetOnlineWritesFlagOnly | app/src/main/java/com/example/campusride/DriverDashboardActivity.kt:202-203 | a toggle stores the new flag and keeps every other profile field |
| DriverDashboard.OnlineOpensRequests | app/src/main/java/com/example/campusride/DriverDashboardActivity.kt:199-216 | going online opens the request list to the driver; going offline closes it |
| DriverDashboard.DriverDashboardScreen.constructor | app/src/main/java/com/example/campusride/DriverDashboardActivity.kt:81-84 | before the profile loads, a click goes online whatever label the layout gives the button; the screen's invariant holds |
| DriverDashboard.DriverDashboardScreen.OnProfile | app/src/main/java/com/example/campusride/DriverDashboardActivity.kt:121-153 | a profile shows its name (default "Driver") and online flag (default false), with the button offering the opposite; a failed read shows "Driver" |
| DriverDashboard.DriverDashboardScreen.OnCompletedRides | app/src/main/java/com/example/campusride/DriverDashboardActivity.kt:157-164 | the count shown is the number of stored rides with the driver's id and status "completed"; a failed query leaves it |
| DriverDashboard.DriverDashboardScreen.OnEarnings | app/src/main/java/com/example/campusride/DriverDashboardActivity.kt:166-177 | the earnings are the fares of that query's rides added up (a missing fare is 0.0); a failed query leaves them |
| DriverDashboard.DriverDashboardScreen.OnRatings | app/src/main/java/com/example/campusride/DriverDashboardActivity.kt:179-196 | with no stored rating for the driver 0.0, otherwise the ratings' sum over their number; a failed query leaves it |
| DriverDashboard.DriverDashboardScreen.Click | app/src/main/java/com/example/campusride/DriverDashboardActivity.kt:199-242 | a click performs the toggle on offer; on success the screen flips and the button is relabelled "Go Offline" or "Go Online" accordingly, otherwise nothing changes on screen |
| RideHistory.EntryOf | app/src/main/java/com/example/campusride/RideHistoryActivity.kt:76-92 | a row reads each field with its default: "Unknown pickup", "Unknown dropoff", 0.0, "unknown", "No driver assigned" |
| RideHistory.HistoryRows | app/src/main/java/com/example/campusride/RideHistoryActivity.kt:65-95 | rows of the history query are distinct rides of the passenger, in a listed status, newest first |
| RideHistory.HistoryCount | app/src/main/java/com/example/campusride/RideHistoryActivity.kt:65-95 | the list has as many rows as the passenger has selected rides |
| RideHistory.StatusLabel | app/src/main/java/com/example/campusride/RideHistoryActivity.kt:147-153 | the three active codes read "In Progress"; three finished codes have their own labels; any other code keeps its length and loses its underscores |
| RideHistory.StatusColour | app/src/main/java/com/example/campusride/RideHistoryActivity.kt:157-161 | green exactly for completed, red exactly for cancelled or rejected, else orange |
| RideHistory.LabelMatchesColour | app/src/main/java/com/example/campusride/RideHistoryActivity.kt:147-161 | for listed codes the label and colour agree: completed green, failed red, under way orange |
| RideHistory.RideHistoryScreen.constructor | app/src/main/java/com/example/campusride/RideHistoryActivity.kt:73 | the list starts empty |
| RideHistory.RideHistoryScreen.OnResult | app/src/main/java/com/example/campusride/RideHistoryActivity.kt:70-98 | the list becomes one `EntryOf` row per result in order, and the empty state shows exactly for no result |
| RideHistory.RideHistoryScreen.OnFailure | app/src/main/java/com/example/campusride/RideHistoryActivity.kt:102-108 | a failure keeps the list and shows the empty state exactly when it is empty |
| RideEntities.NewRideEntity | app/src/main/java/com/example/campusride/RideEntity.kt:6-16 | a row built without `synced` starts unsynced |
| RideEntities.MarkSyncedOnlyFlag | app/src/main/java/com/example/campusride/SyncWorker.kt:46 | `copy(synced = true)` changes only the flag, and changes the row exactly when it was unsynced |
| RideDao.InsertByTime | app/src/main/java/com/example/campusride/RideDao.kt:14-15 | inserting into a newest-first list keeps it newest first and adds exactly the entry |
| RideDao.RideTable.constructor | app/src/main/java/com/example/campusride/RideDao.kt:6-7 | the table starts empty |
| RideDao.RideTable.Insert | app/src/main/java/com/example/campusride/RideDao.kt:8-9 | REPLACE insert: the row becomes the one for its key, whatever was there |
| RideDao.RideTable.Update | app/src/main/java/com/example/campusride/RideDao.kt:11-12 | the row with that key is rewritten; without one nothing happens |
| RideDao.RideTable.RideById | app/src/main/java/com/example/campusride/RideDao.kt:20-21 | the row with that key, or nothing exactly when no row has it |
| RideDao.RideTable.GetUnsyncedRides | app/src/main/java/com/example/campusride/RideDao.kt:17-18 | every unsynced row, each once |
| RideDao.RideTable.GetAllRides | app/src/main/java/com/example/campusride/RideDao.kt:14-15 | every row once, newest first |
| LocalSync.WorkQueue.constructor | app/src/main/java/com/example/campusride/LocalSyncHelper.kt:56-60 | the queue starts empty |
| LocalSync.WorkQueue.Enqueue | app/src/main/java/com/example/campusride/LocalSyncHelper.kt:60 | a job is appended |
| LocalSync.HistoryRow | app/src/main/java/com/example/campusride/LocalSyncHelper.kt:30-40 | the row is unsynced, keyed by the given ride id or else a fresh id, and carries the given fields and time |
| LocalSync.SaveRideToHistory | app/src/main/java/com/example/campusride/LocalSyncHelper.kt:19-61 | the row is inserted (when the insert succeeds) and one network-constrained sync job is queued in every case |
| LocalSync.SaveReplacesRow | app/src/main/java/com/example/campusride/LocalSyncHelper.kt:30-45 | saving under an existing id replaces that row with a fresh unsynced one and adds no other key |
| SyncWorker.Rem | app/src/main/java/com/example/campusride/SyncWorker.kt:39 | Kotlin's `%` takes the sign of the dividend |
| SyncWorker.MakeTimestamp | app/src/main/java/com/example/campusride/SyncWorker.kt:39 | a timestamp exists exactly for seconds in years 1..9999 and nanoseconds within one second |
| SyncWorker.SplitRoundTrip | app/src/main/java/com/example/campusride/SyncWorker.kt:39 | for a non-negative time the split into seconds and nanoseconds loses nothing |
| SyncWorker.TimestampDefined | app/src/main/java/com/example/campusride/SyncWorker.kt:39 | every time from the epoch to the end of year 9999 gives a timestamp that reads back as it |
| SyncWorker.NegativeMillisRefused | app/src/main/java/com/example/campusride/SyncWorker.kt:39 | a pre-epoch time that is not a whole second gives negative nanoseconds, so its upload fails |
| SyncWorker.UploadDoc | app/src/main/java/com/example/campusride/SyncWorker.kt:32-40 | an upload holds exactly the seven fields |
| SyncWorker.FirstFailure | app/src/main/java/com/example/campusride/SyncWorker.kt:30-53 | every upload before the first failure succeeds, and the one at it fails |
| SyncWorker.DoWork | app/src/main/java/com/example/campusride/SyncWorker.kt:18-60 | the batch is every unsynced row once; the rows before the first failed upload are uploaded and marked synced, the rest untouched; success exactly when all uploads succeed |
| SyncWorker.FirstFailureIs | app/src/main/java/com/example/campusride/SyncWorker.kt:30-53 | a count of successes followed by a failure (or the end) is the first failure |
| SyncWorker.SyncedRowsAt | app/src/main/java/com/example/campusride/SyncWorker.kt:46 | marking rows keeps the keys; uploaded rows become synced copies and the others are unchanged |
| SyncWorker.StoppedRun | app/src/main/java/com/example/campusride/SyncWorker.kt:48-52 | after a stopped run the uploaded rows are synced and the rest are still unsynced, ready for the retry |
| SyncWorker.CompleteRunLeavesNothingUnsynced | app/src/main/java/com/example/campusride/SyncWorker.kt:55 | after a complete run no row is unsynced |
| SyncWorker.ResendIdempotent | app/src/main/java/com/example/campusride/SyncWorker.kt:42 | uploading a row twice leaves the store as uploading it once |
| SyncWorker.UploadDropsBookingFields | app/src/main/java/com/example/campusride/SyncWorker.kt:32-42 | uploading the history row of a booked ride leaves `rides/<rideId>` without creation time, fare, place names or driver name, with the row's status |
| SyncWorker.UploadReplacesDocument | app/src/main/java/com/example/campusride/SyncWorker.kt:42 | an upload replaces the whole remote ride document and leaves the others alone |

## Left out

- The great-circle distance is a parameter, assumed non-negative; its trigonometry is floating point.
- Floating-point rounding is not modelled: `Double` is `real`, and "%.2f" / "%.1f" / "%.6f" formatting is left out.
- The place-search service, the geocoders, the authentication service and the Google sign-in client are foreign code. Their answers are parameters.
- Time, UUIDs and `System.currentTimeMillis()` are parameters (`now`, `freshId`, `nowMillis`).
- The e-mail pattern is a parameter standing for `Patterns.EMAIL_ADDRESS`.
- Layout, colours beyond the three history hex codes, toasts, progress bars, intents and navigation are not modelled, except where a screen decides what it shows or whether it closes.
- Coroutines, callbacks and WorkManager scheduling are not modelled: each remote or local call completes in turn. Constraint-based scheduling is reduced to the queued job record.
- Firestore transaction retries are not modelled; the top-up reads and writes in one step.
- Shared preferences are parameters of the restore; the save after booking is not modelled.
- `isProcessingLocationChange` is not modelled. It only guards re-entrant text edits, which the sequential model cannot produce.
- The layout's initial button labels and states are constructor parameters.
- `Long` and `Int` widths are not modelled; counts and milliseconds are unbounded integers.
- The whitespace that `trim()` removes is space, tab, newline and carriage return. Other Unicode whitespace is not modelled.
- Case folding covers ASCII letters only.
- The dropdown filter of the location fields is platform code. The list it leaves is a parameter of `BookRide.BookRideScreen.ChooseSuggestion`, required only to be an ordered sublist of the suggestions.
- `FareEstimator.Minutes`: the time truncates distance / 0.5 (`toInt()`) rather than rounding it; the model follows the code.
- The map-result race is not modelled as a schedule. When a map result's name is not a campus spot and that side's coordinates were unset, the booking screen also asks the place search; a later reply overrides the chosen point. `ApplyMapResult` reports that lookup and `ApplyPlaceReply` models the reply.
- `Documents.GetString`: a field of the wrong type reads as absent, where the Kotlin getter `getString` throws; that exception is not modelled.
- `Documents.GetDouble`: a field of the wrong type reads as absent, where the Kotlin getter `getDouble` throws; that exception is not modelled.
- `Documents.GetLong`: a field of the wrong type reads as absent, where the Kotlin getter `getLong` throws; that exception is not modelled.
- `Documents.GetBoolean`: a field of the wrong type reads as absent, where the Kotlin getter `getBoolean` throws; that exception is not modelled.
- `Documents.GetTimestamp`: a field of the wrong type reads as absent, where the Kotlin getter `getTimestamp` throws; that exception is not modelled.
- `DriverProfile.ShownStatus`: the "Account Status: " prefix of the shown text is left out.
- `RideRequests.RequestOf`: `toInt()` of `estimatedTime` is not modelled.
- Queries drop documents that lack the ordered field (`orderBy("createdAt")`): the query results require `createdAt`. Result order among equal timestamps is not fixed.
- The ride-history date display and the "Driver: " and route text are not modelled.
- `setText(null)` is taken as the empty text.
- Screens that close when no user is signed in (the dashboard's and history's loading) are not modelled as calls.
- Navigation after going online (to the request list) is not modelled; `DriverDashboard.OnlineOpensRequests` states what that screen then finds.
- `RideDao.RideTable.Update`: exceptions thrown by `update` inside the sync loop are not modelled; a local failure is the `localOk` parameter of `SyncWorker.DoWork`, covering the whole read.
- The dashboard starts its three stats queries only after the profile is found; each listener is a separate call, and which result arrives first is not modelled.
- A cancelled Google account chooser, a chooser error or a missing id token leave the login screen as it was and are not modelled as calls.
- `RideHistory.StatusLabel`: the label of codes outside the listed six is stated by its length and its missing underscores, not by its exact letters.

## Findings

| source | as written | input that shows it | evidently intended | confidence | as-written member | corrected member |
|---|---|---|---|---|---|---|
| app/src/main/java/com/example/campusride/BookRideActivity.kt:154-166 | the suggestion click listener reads `campusLocationNames[position]`, the unfiltered list, while `position` is the clicked entry's place in the filtered dropdown | type "S" in the pickup field (the dropdown shows Student Center, Science Building, Sports Complex) and click "Science Building": the field shows "Science Building" but the pickup point is Student Center's | the point of the clicked entry, so that the field's name and the side's point name the same spot | high; not executed (the dropdown list assumes the platform's prefix-or-word-prefix filter) | BookRide.FilteredClickMislocates | BookRide.ShownClickLocates |
