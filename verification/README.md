# Certificate front end: access control, forms and certificate text

This project is a Dafny model of the decision logic of a small Flask application. Logged-in users file requests for a "non-employment" certificate. The administrator lists them, and the application deploys each certificate as a contract on a local Ethereum ledger. The model covers the parts of `MyProject.py` that are pure decisions or pure text:

- **Sessions and guards** (`sessions.dfy`). The session is a map from keys to values. The `is_logged_in` and `admin_only` decorators are guards. `Decide` runs a stack of guards, outermost first. Login writes `logged_in` and `username` into the session (`SignIn`), and logout clears it (`SignOut`).
- **Form validation** (`forms.dfy`). WTForms validator chains appear as data: `Length`, `DataRequired` and `EqualTo`. `RegisterFields` and `ArticleFields` are the two declared forms. `Validates` is `form.validate()`. `Strip` and `IsSpace` (`strings.dfy`) give Python's whitespace meaning, which `DataRequired` relies on.
- **Certificate text** (`certificate.dfy`). This file builds the display name, the declaration sentence passed to the contract constructor, and the two-line audit record. The declaration's parser recovers the name and the CIN when the CIN has no space. The record's parser recovers the declaration and the address when neither holds a newline. The facts are not validated, so a space in the CIN or a newline in any fact can make the text ambiguous.
- **Request handling** (`app.dfy`). It holds the route table (methods and guards), the handler bodies for every route, and `Serve`, which chains method check, guards and handler. A handler returns the new session, the response, and the one database write or contract deployment it asks for. `Env` supplies everything that comes from outside the process.
- **Access policy** (`policy.dfy`). This is what the route table and the guards add up to, and how login and logout move a session through it.

Three things a certificate service might be expected to do are absent from the code, so the model leaves them out as well:

- `create_certificate` does not validate the facts it receives. A missing JSON member raises `KeyError` and the request fails with 500.
- The declaration embeds the name and the CIN, but not the date. The date is only a separate constructor argument.
- There is no idempotency key, no retry, no confirmation depth and no record store. The audit file `mon_contrat.txt` is opened for writing, so each issuance overwrites the previous record instead of appending to it.

## Model

| member | source | states |
|---|---|---|
| Sessions.Decide | MyProject.py:33-51 | A refused request is refused by a guard that turns the session away while every guard outside it admits it, and the refusal carries that guard's flash message. |
| Sessions.DecideAllowsIffAllAdmit | MyProject.py:33-51 | A stack of decorators runs the handler if and only if every guard in it admits the session. |
| Sessions.DecideRefusesWithFirstFailure | MyProject.py:36-50 | A refused request carries the flash message of the outermost guard that refuses. |
| Sessions.StackedAdminGuards | MyProject.py:53-56 | Putting `is_logged_in` outside `admin_only` does not change who gets in. It only changes the message a visitor who is not logged in sees ("Please login" instead of "Admin access only"). |
| Sessions.SignIn | MyProject.py:110-111 | After login `logged_in` holds `True` and `username` the submitted name, so the session is logged in, it is an admin session exactly when the submitted name is `admin`, and every other key keeps its value. |
| Sessions.SignOut | MyProject.py:127 | `session.clear()` leaves no key, so the session is neither logged in nor admin. |
| Strings.Strip | MyProject.py:72 | `str.strip()`, which `DataRequired` applies, returns an occurrence of the text with only whitespace (Python's `isspace` set, `Strings.IsSpace`) cut from either side, and the result neither starts nor ends with whitespace. |
| Strings.StripEmptyIffBlank | MyProject.py:72 | `str.strip()` leaves nothing exactly when every character is Python whitespace. This is the emptiness test `DataRequired` applies. |
| Forms.RunChainEmptyIff | MyProject.py:71-74 | A field's validator chain reports no error exactly when every validator in it passes. |
| Forms.RunChainReportsFailures | MyProject.py:71-74 | A field reports only validators that reject its text, and a failing `DataRequired` is reported alone and stops the chain. |
| Forms.ValidatesIffAllPass | MyProject.py:67-75 | A form validates exactly when every validator of every declared field passes. |
| Forms.RegisterValidatesIff | MyProject.py:67-75 | The registration form accepts if and only if the name has 1 to 25 characters, the username 4 to 25, the email 6 to 50, the password is not blank, and the password equals the confirmation. |
| Forms.PasswordFailures | MyProject.py:71-75 | A blank password is reported as missing and never as a mismatch. A non-blank password is reported as a mismatch exactly when it differs from the confirmation. |
| Forms.ArticleValidatesIff | MyProject.py:145-148 | The article form accepts if and only if the first name has 1 to 22 characters, the last name 2 to 22 and the CIN 3 to 13. |
| Certificate.DisplayName | MyProject.py:209 | The name passed to the contract is the last name, one space and the first name, and its length is the sum of theirs plus one. |
| Certificate.Declaration | MyProject.py:210-212 | The declaration starts with the fixed opening (district and officer), has the fixed " qui a la " right after the name, and ends with the fixed closing. Its length is the fixed text's plus the name's and the CIN's. |
| Certificate.AuditRecord | MyProject.py:222-224 | For every declaration and address, the audit file holds the declaration verbatim, a newline, "Contrat déployé à l'adresse : " with the address verbatim, and a final newline. |
| Certificate.DisplayNameParts | MyProject.py:209 | The display name is the last name, one space, then the first name, with both parts at fixed positions. |
| Certificate.DeclarationEmbedsFacts | MyProject.py:212 | The name and the CIN occur verbatim in the declaration, at offsets fixed by the constant text before them. |
| Certificate.DeclarationEmbedsNames | MyProject.py:209-212 | The first name and the last name each occur verbatim in the declaration. |
| Certificate.DeclarationNewlines | MyProject.py:210-212 | The declaration contains a newline only if the name or the CIN does, because the fixed text has none. |
| Certificate.ParseDeclarationSound | MyProject.py:212 | Whatever the declaration parser returns rebuilds exactly the declaration it was given. |
| Certificate.ParseDeclarationComplete | MyProject.py:212 | For a CIN without spaces, the declaration parser recovers both the name and the CIN, whatever the name contains. |
| Certificate.DeclarationInjective | MyProject.py:212 | Two declarations with space-free CINs are equal only when their names and CINs are equal. |
| Certificate.AuditRecordLines | MyProject.py:222-224 | Given newline-free parts, the audit file is exactly two lines: the declaration, then "Contrat déployé à l'adresse : " followed by the address. |
| Certificate.ParseAuditRecordComplete | MyProject.py:222-224 | An audit record written from newline-free parts parses back to its declaration and address. |
| Certificate.ParseAuditRecordSound | MyProject.py:222-224 | Any text the record parser accepts is exactly the audit record of the newline-free declaration and address it returns. |
| Certificate.IssuedText | MyProject.py:209-224 | For any facts and address, the names sit at fixed places in the display name and every fact occurs in the declaration. The declaration parses back to the name and the CIN when the CIN has no space. The record parses back to the declaration and the address when neither holds a newline. |
| App.LoginView | MyProject.py:96-123 | A login changes the session (to `SignIn` with the submitted name) and redirects to the dashboard if and only if a POST names a known user whose stored hash verifies the password. Otherwise the session is unchanged and there is no redirect. A GET shows the form, a POST missing a field is a 400, an unknown user gets "Username not found" and a wrong password "Invalid login". |
| App.RegisterView | MyProject.py:77-94 | A user row is written, with the hash of the password, if and only if a POST passes the registration bounds. The caller is then sent home. Otherwise the form is shown again and nothing is written. |
| App.AddArticleView | MyProject.py:150-164 | A request row with the submitted first name, last name and CIN is written if and only if a POST passes the article bounds. Otherwise the form is shown again. |
| App.IssueCertificate | MyProject.py:177-226 | A contract is deployed if and only if all four facts are present and the node answers. A missing fact gives 500 with nothing done. An unreachable node gives a 500 status. On deployment, the name, declaration and record are the display name, declaration and audit record built from the JSON facts and the address, whatever they contain, and the date is passed unchanged. The declaration parses back to the name and the CIN when the CIN has no space. The record parses back to its parts when neither holds a newline. |
| App.Methods | MyProject.py:25-177 | `delete_article` and `create_certificate` accept only POST. `register`, `login` and `add_article` accept GET and POST, and every other route accepts only GET. |
| App.Guards | MyProject.py:53-178 | `is_logged_in` guards exactly the administrator and member routes and is always the outermost decorator. `admin_only` guards exactly `articles` and `dashboard`. |
| App.Serve | MyProject.py:33-56 | A method a route does not accept gives 405. Otherwise the handler runs when every guard admits the session, and if one refuses, the caller is redirected to login with a "danger" message and nothing changes. |
| App.Handle | MyProject.py:25-179 | Only `login` and `logout` change the session, and `logout` empties it. `articles` and `dashboard` list the article table with no write. `delete_article` deletes exactly the row in its URL and returns to the dashboard. Each write comes only from its own route. |
| App.ListArticles | MyProject.py:56-64 | The table's rows are listed exactly when there is at least one. Otherwise the page shows "No Articles Found". |
| Policy.RoutePolicy | MyProject.py:53-179 | `articles` and `dashboard` run exactly for the admin session, `add_article`, `delete_article` and `create_certificate` exactly for a logged-in session, and every other route for anyone. |
| Policy.AnonymousRefused | MyProject.py:36-40 | A visitor who is not logged in is redirected to login from every guarded route with "Unauthorized, Please login", and the session and data stay untouched. |
| Policy.MemberNotAdmin | MyProject.py:46-50 | A logged-in user other than `admin` is refused `articles` and `dashboard` with the admin-only message, but reaches the handlers of the member routes. |
| Policy.SessionChangesOnlyAtLoginOrLogout | MyProject.py:105-127 | No request changes the session except a successful login and logout. |
| Policy.WritesNeedLogin | MyProject.py:77-179 | Every database write or deployment except registration needs a logged-in session. Only `register` inserts users, and only `create_certificate` deploys. |
| Policy.CertificateIssuedIff | MyProject.py:177-200 | A contract is deployed exactly for a logged-in POST that carries all four facts while the node answers. |
| Policy.LogoutThenRefused | MyProject.py:125-129 | After logout the session is empty and every guarded route refuses with "Unauthorized, Please login". |
| Policy.LoginThenAccess | MyProject.py:105-121 | After a successful login the member routes open, and the admin routes open exactly when the submitted name is `admin`. A failed login leaves the session unchanged. |

## Left out

- Flask itself (routing, templates, `redirect`, `url_for`, `jsonify`) is reduced to the `Response` values. Re-rendered forms do not carry their error messages.
- The framework also answers OPTIONS on every route, and HEAD on every route that accepts GET. Only GET and POST are modelled.
- `flash` keeps its messages under a session key of its own. Flash messages appear only in responses, never as session contents.
- MySQL is an input of the model. The stored password hash for a user name (`Env.storedHash`) and the article rows (`Env.articles`) are read from `Env`, and writes are returned as `Effect` values. Which row `fetchone` picks among duplicates, and the collation used to compare user names, are left to `storedHash`.
- The `sha256_crypt` hashing library is an opaque input: `verify` for login and `encrypt` for registration.
- Reading `MyContract.sol`, installing and running the Solidity compiler, and the contract interface are external toolchain steps and are not modelled. The same goes for the Ganache connection, account selection, the transaction and the wait for its receipt. Only the connectivity answer and the receipt's address are inputs. An exception raised by any of these steps is not modelled.
- A database error (for example a rejected INSERT, which the framework answers with 500 and no flash) is not modelled. `RegisterView` and `AddArticleView` promise the redirect whenever the form validates.
- Writing `mon_contrat.txt` and printing the address are I/O. Only the text that would be written is modelled, and a failure of the write is not.
- `create_certificate` assumes a JSON body whose members are strings. A missing body and non-string members are not modelled.
- The `cur.close()` calls after a `return` (lines 65, 118 and 143) never run.
- The hard-coded secret key and the server start-up (lines 228-230) are out of scope. The `helo` and `about` pages are modelled only as unguarded routes that render their template.
