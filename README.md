# Salam soul track: prayer checklist and sign-in forms

A Dafny model of the stateful logic of a small prayer-tracking web app. It covers three pages.

- **Dashboard** (`DashboardPage`, dashboard.dfy). The page holds five prayer cards: fajr, dhuhr, asr, maghrib and isha, in that order. Each card has a `completed` flag. Clicking a card toggles the flag of the card whose id matches and shows a toast. The page derives the number of completed prayers from the list, and the "N prayer(s) remaining" / "all completed" line from that number. The `Dashboard` class holds the `prayers` state. `TogglePrayer` replaces the list by `Toggle(prayers, id)`, the pure `map` the page performs. The lemmas prove the checklist's properties about `Toggle` and `CountCompleted`.
- **Register** (`RegisterPage`, register.dfy). An email/password form. The submit handler checks that both fields are present, then that the password has at least 6 characters. Only then does it call the sign-up service, with `loading` set for the duration of the call. A failed reply stays on the page. A successful one navigates to `/login` after 1.5 s. If the call rejects, the handler stops before clearing `loading`, so the form stays disabled and no toast appears.
- **Login** (`LoginPage`, login.dfy). One form with a mode flag `isLogin`. In register mode it also asks for a name. Submitting only validates: on success it shows "Welcome back!" or "Account created!" and navigates to `/dashboard` after 1 s.

Toasts and navigations are not performed. They are returned as values (`Feedback.Toast`, `Feedback.Navigation`, feedback.dfy). How the sign-up service's promise settles is a parameter of `Register.HandleSubmit`: it resolves without an error, resolves with an error, or rejects.

The checklist lives in the dashboard component's own state. Its initial flags are false/true/true/false/true. Toggling an id that matches no card changes nothing.

## Model

| member | source | states |
|---|---|---|
| DashboardPage.InitialPrayers | src/pages/Dashboard.tsx:30-36 | the initial list's ids are fajr, dhuhr, asr, maghrib, isha in that order, and a card starts completed iff it is dhuhr, asr or isha |
| DashboardPage.InitialChecklist | src/pages/Dashboard.tsx:30-38 | the initial list has five cards, its ids are distinct, and its completed count is 3 |
| DashboardPage.CountCompleted | src/pages/Dashboard.tsx:38 | the completed count is at most the list length; it is 0 iff no card is completed and equals the length iff every card is |
| DashboardPage.Toggle | src/pages/Dashboard.tsx:42-58 | toggling rebuilds a list of the same length |
| DashboardPage.ToggleEffect | src/pages/Dashboard.tsx:42-57 | a card whose id matches gets its `completed` negated and keeps every other field; every other card is unchanged; length and id order are preserved |
| DashboardPage.ToggleAbsent | src/pages/Dashboard.tsx:42-58 | toggling an id that is in no card returns the list unchanged (no error) |
| DashboardPage.ToggleTwice | src/pages/Dashboard.tsx:42-58 | toggling the same id twice restores the original list |
| DashboardPage.ToggleCount | src/pages/Dashboard.tsx:38-44 | with distinct ids, toggling a present id changes the completed count by +1 if that card was open and by -1 if it was completed |
| DashboardPage.ToggleNotice | src/pages/Dashboard.tsx:47-53 | the toast says "Prayer completed!" (default style) iff the card was open before the click, and is destructive iff it was completed |
| DashboardPage.ToggleNotices | src/pages/Dashboard.tsx:42-56 | toggling shows at most one toast per card; it shows none iff no card has the id; every toast shown is the one for a card whose id matches |
| DashboardPage.NoticesAbsent | src/pages/Dashboard.tsx:42-58 | an unknown id shows no toast |
| DashboardPage.NoticesOne | src/pages/Dashboard.tsx:42-56 | with distinct ids, a present id shows exactly one toast, the one for its own card |
| DashboardPage.ProgressOf | src/pages/Dashboard.tsx:182-184 | the "all completed" message iff the count is 5; otherwise `5 - count` prayers remain, with the plural "s" iff that is more than one |
| DashboardPage.ProgressOfChecklist | src/pages/Dashboard.tsx:182-184 | on five cards the "all completed" message appears iff every card is completed; otherwise 1 to 5 prayers remain, equal to the number of open cards, and the plural "s" appears iff more than one remains |
| DashboardPage.Dashboard.constructor | src/pages/Dashboard.tsx:30-36 | the component starts from the initial list, whose completed count is 3 |
| DashboardPage.Dashboard.CompletedCount | src/pages/Dashboard.tsx:38 | `completedCount` of the component's list lies in [0, 5] |
| DashboardPage.Dashboard.ProgressMessage | src/pages/Dashboard.tsx:182-184 | the remaining line: "all completed" iff every card is ticked, else `5 - CompletedCount()` remaining, which lies in 1..5, with the plural iff more than one |
| DashboardPage.Dashboard.TogglePrayer | src/pages/Dashboard.tsx:41-59 | the new list is the toggled old list and keeps the five slots in order; an unknown id changes nothing and shows nothing; a known slot flips, moves the count by exactly one and shows that card's toast |
| RegisterPage.WithField | src/pages/Register.tsx:82-87 | the named field takes the new value and the other field keeps its value |
| RegisterPage.Validate | src/pages/Register.tsx:40-56 | "missing fields" iff email or password is empty; "too short" iff both are present and the password has 1 to 5 characters; sign-up is called iff the email is present and the password has at least 6 characters |
| RegisterPage.MissingFieldsFirst | src/pages/Register.tsx:40-56 | an empty password is reported as a missing field, never as a short password |
| RegisterPage.RejectionToast | src/pages/Register.tsx:40-56 | a submit stopped by a guard shows a destructive toast, titled "Missing fields" for the first guard and "Password too short" for the second |
| RegisterPage.ReactToSignUp | src/pages/Register.tsx:60-79 | an error reply shows "Registration failed" with the service's message and does not navigate; a success reply shows a default-style toast and navigates to `/login` after 1500 ms; a rejected call shows no toast and does not navigate |
| RegisterPage.Register.constructor | src/pages/Register.tsx:12-16 | the page starts not loading, with both fields empty |
| RegisterPage.Register.HandleInputChange | src/pages/Register.tsx:82-87 | only the named field of the form changes; `loading` does not |
| RegisterPage.Register.HandleSubmit | src/pages/Register.tsx:37-80 | sign-up is called iff the validator says so, with the form's email and password and with `loading` true while it is awaited; `loading` is false afterwards unless the call rejects, in which case it stays true; a guard stop leaves `loading` alone, shows the guard's toast and does not navigate; the form is unchanged |
| LoginPage.WithField | src/pages/Login.tsx:56-61 | the named field among name/email/password takes the new value; the other two keep theirs |
| LoginPage.Decide | src/pages/Login.tsx:20-40 | "missing fields" iff email or password is empty, in either mode; "missing name" iff both are present, the mode is register and the name is empty; success iff both are present and either the mode is login or the name is present; no password length is checked |
| LoginPage.VerdictToast | src/pages/Login.tsx:24-48 | the toast is destructive iff validation failed; on success its title is "Welcome back!" in login mode and "Account created!" otherwise |
| LoginPage.VerdictNavigation | src/pages/Login.tsx:50-53 | the page navigates iff validation succeeded, and then to `/dashboard` |
| LoginPage.MissingFieldsInEitherMode | src/pages/Login.tsx:24-31 | an empty email or password gives "missing fields" in both modes |
| LoginPage.LoginIgnoresName | src/pages/Login.tsx:33-53 | in login mode any name, the empty one included, succeeds once email and password are non-empty |
| LoginPage.Login.constructor | src/pages/Login.tsx:13-18 | the page starts in login mode with all three fields empty |
| LoginPage.Login.SwitchMode | src/pages/Login.tsx:148 | the mode link negates `isLogin` and leaves the form alone |
| LoginPage.SwitchModeTwice | src/pages/Login.tsx:148 | switching the mode twice restores it |
| LoginPage.Login.HandleInputChange | src/pages/Login.tsx:56-61 | only the named field of the form changes; the mode does not |
| LoginPage.Login.HandleSubmit | src/pages/Login.tsx:20-54 | navigation to `/dashboard` after 1000 ms happens iff email and password are present and, in register mode, the name too; the success title depends on the mode; otherwise a destructive "Missing fields" or "Missing name" toast |

## Left out

- Rendering: JSX, CSS classes, icons, images and the text of the messages. The dashboard's remaining line is modelled as the `Progress` value it is built from.
- `completionPercentage` and the progress ring's `strokeDashoffset` use floating point and `Math.PI`. The ratio is the integer pair `CompletedCount()` / 5.
- The calls to `toast`, `navigate`, `setTimeout` and `useAuth` are not performed. They appear only as returned `Toast` and `Navigation` values. How the sign-up call settles is a method parameter. The model does not say when it settles.
- The redirect to `/login` when no user is signed in, the loading screen and `handleLogout` on the dashboard. These are asynchronous navigation glue around the authentication service.
- Date formatting with `toLocaleDateString` and the placeholder Hijri date (a constant year 1446 with the Gregorian month index) are locale library calls and a fake calendar.
- A card calls `togglePrayer` from both its `onClick` and the checkbox's `onChange`. Whether one click fires both is DOM event behaviour. The model takes one toggle per call.
- The toast is raised inside the state updater passed to `setPrayers`. React may run that updater twice in development mode. The model shows one toast per matching card.
- The `disabled={loading}` attribute on the register form's inputs and button is not modelled. `Register.HandleSubmit` does not require `!loading`.
- The welcome and not-found pages contain only static markup, navigation buttons and a log call.
- RegisterPage.Validate: the minimum length is counted in Unicode scalar values (Dafny characters). JavaScript's `length` counts UTF-16 code units, so a password with characters outside the Basic Multilingual Plane may be measured differently.
- `handleInputChange` writes whatever key the input's `name` attribute holds. The model restricts the key to the inputs the forms actually render: email/password, or name/email/password.
