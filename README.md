# Leelavati Automation admin dashboard — a Dafny model

The dashboard is a FastAPI service over one SQL table of products, plus a
Next.js front end. Its screens list, add, edit and delete products, brands,
categories, sub-categories, clients and projects. This project models:

- **The products service** (`ProductService`). The table is a map from id
  to row, together with the next value of the id sequence. The model covers
  the paged listing by ascending id, lookup by id, lookup by code, delete,
  the partial update (`exclude_unset`), and insert. Lookup by id, lookup
  by code, delete and update have the service's 404 status and detail.
  The listing has the query defaults `limit=10` and `offset=0`, and its
  422 names the query parameters that fail their bounds. Insert has no
  error path.
- **The products page** (`ProductsPage`). It shows fifteen rows per page,
  keeps a loading flag, has Previous and Next buttons, and shows a
  "Showing from–to" heading.
- **The product forms.**
  - The table's edit sheet (`ProductEditForm`): it seeds the form from the
    row with `null` shown as `""`, checks the zod schema, sends the PUT and
    resets the form afterwards.
  - The add-product form (`ProductAddForm`).
- **Four list screens**: brands (`Brands`), categories (`Categories`),
  sub-categories (`Subcategories`) and clients (`Clients`). Each has:
  - a list sorted by `priority`;
  - one or two drafts;
  - three dialog flags;
  - the `deleteId` state, with its guard: `!== null` on two screens,
    truthiness on the other two (`Screen`).
- **The projects screen** (`Projects`). Rows are edited in place by id and
  saved one at a time. The list is sorted by `id || 0`.
- **The add-project page** (`AddProject`).

No request is made. A handler that awaits a request takes the outcome as a
parameter (`Response.Ok(payload)` or `Response.Fail`). It returns the
requests it issued: method, URL target and JSON body. `Fail` stands for
every failure the code catches: transport errors, non-2xx statuses, and
bodies that cannot be decoded. Screen state is a class whose fields are
the component's `useState` variables.

The array sort is modelled as an in-place insertion sort on a fresh array
(`Sorting`). It is specified only by its result: sorted by the key, and a
permutation of the input.

## Model

| member | source | states |
|---|---|---|
| Sorting.SortByKey | frontend/app/brands/page.tsx:71 | the result is sorted by the comparator's key and is a permutation (same multiset) of the fetched rows |
| Screen.TruthyIsStricter | frontend/app/sub-categories/page.tsx:116 | the truthiness guard admits only marks the `!== null` guard admits; the two differ exactly on a stored `0` or `undefined` |
| Screen.WriteRequests | frontend/app/sub-categories/page.tsx:78-94 | a write handler issues its own request first; the refetch of the list follows if and only if the write succeeded |
| ProductRecord.Set | backend/main.py:141-142 | `setattr` writes the value into the named column and leaves every other column as it was |
| ProductRecord.ColumnsDetermine | backend/main.py:42-58 | two rows that agree on all fourteen columns are equal |
| ProductRecord.Blank | frontend/components/add-product.tsx:43-58 | every one of the fourteen default values is `""` |
| ProductService.AscendingKeys | backend/main.py:110 | `ORDER BY id ASC`: lists each key of the table exactly once, strictly increasing |
| ProductService.AscendingKeysRank | backend/main.py:110 | the `i`-th key in ascending order has exactly `i` smaller keys in the table |
| ProductService.WindowRank | backend/main.py:110 | the `i`-th key that `OFFSET`/`LIMIT` select is a key of the table with exactly `offset + i` smaller keys |
| ProductService.WithCode | backend/main.py:122 | the filter keeps a key exactly when its row's code equals the requested code; order is kept |
| ProductService.ResponsesMembership | backend/main.py:122-125 | a response is in the result exactly when its id was selected and it carries that id's stored row |
| ProductService.ApplyUpdateColumns | backend/main.py:141-142 | after the update, each column the body set holds the value sent; each column the body left unset keeps its stored value |
| ProductService.EmptyUpdateIsIdentity | backend/main.py:141-143 | a body that sets no field leaves the row unchanged |
| ProductService.UpdateIsIdempotent | backend/main.py:136-145 | sending the same update twice gives the same row as sending it once |
| ProductService.SetAttributes | backend/main.py:141-142 | the `setattr` loop, run over the set fields in any order, ends with the row the partial update describes |
| ProductService.ProductTable.constructor | backend/main.py:42-61 | a new table is empty and its id sequence is ahead of every key |
| ProductService.ProductTable.GetAllProducts | backend/main.py:98-111 | an absent `limit` is 10 and an absent `offset` is 0; a 422 validation error exactly when `limit < 1` or `offset < 0`, naming `limit` exactly when it is below 1 and `offset` exactly when it is negative; otherwise `min(limit, max(0, n - offset))` stored rows in strictly increasing id order, the `i`-th having exactly `offset + i` smaller ids |
| ProductService.ProductTable.GetProductById | backend/main.py:113-118 | the stored row under that id, or 404 "Product not found" exactly when there is none |
| ProductService.ProductTable.GetProductsByCode | backend/main.py:120-125 | exactly the stored rows with that code, each once; 404 "No products found with this code" exactly when no row has the code |
| ProductService.ProductTable.DeleteProductById | backend/main.py:127-134 | removes exactly that row and returns the success detail; 404 with the table unchanged when the id is absent; afterwards the id is not found |
| ProductService.ProductTable.UpdateProductById | backend/main.py:136-145 | 404 with the table unchanged for an absent id; otherwise only that row changes, to the partial update of its stored value, and the response carries the new row |
| ProductService.ProductTable.AddProduct | backend/main.py:166-191 | inserts the fourteen fields of the body under an id not in the table and changes nothing else; returns the message "Product added successfully" with that id, and a lookup of that id then returns the new row |
| ProductsPage.PreviousOffset | frontend/app/products/page.tsx:159 | never negative; from an aligned positive offset, goes back exactly one page and stays aligned |
| ProductsPage.NextOffset | frontend/app/products/page.tsx:166 | moves forward by exactly the page size, so the offset stays a multiple of it |
| ProductsPage.PageAgainstTable | frontend/app/products/page.tsx:67-68 | a fetched page has at most 15 rows; it is empty exactly when the offset is at or past the table's size (the heading then reads `offset+1`–`offset`), and shown row `i` has exactly `offset + i` smaller ids |
| ProductsPage.ProductList.constructor | frontend/app/products/page.tsx:46-49 | the page starts loading, at offset 0, with no rows |
| ProductsPage.ProductList.CurrentHeading | frontend/app/products/page.tsx:120-124 | the loading heading shows exactly while loading; otherwise it starts at `offset + 1` and spans as many numbers as there are rows |
| ProductsPage.ProductList.BeginFetch | frontend/app/products/page.tsx:51-54 | sets loading and requests `/products?limit=15&offset=<offset>`; rows and offset are unchanged |
| ProductsPage.ProductList.EndFetch | frontend/app/products/page.tsx:55-60 | loading ends; a success replaces the rows with the page, a failure keeps the old rows |
| ProductsPage.ProductList.ClickPrevious | frontend/app/products/page.tsx:158-164 | nothing while disabled (`offset === 0 \|\| loading`); otherwise exactly one page back, loading, and the fetch of that page; the offset stays a non-negative multiple of 15 |
| ProductsPage.ProductList.ClickNext | frontend/app/products/page.tsx:165-171 | nothing while loading; otherwise exactly one page on, loading, and the fetch of that page; the offset stays a non-negative multiple of 15 |
| ProductEditForm.EditValidIff | frontend/components/data-table.tsx:64-79 | the schema accepts a form exactly when code, main category, sub category, brand and model are non-empty and every column except `range`, `images` and `pdf` holds a string; for an all-string form, the five required columns decide |
| ProductEditForm.SanitizeColumns | frontend/components/data-table.tsx:105-111 | seeding keeps each string column of the row and turns each null column into `""` |
| ProductEditForm.SanitizeProperties | frontend/components/data-table.tsx:105-111 | a seeded form holds only strings; seeding is idempotent; the schema accepts the seeded form exactly when the row's five required columns are filled |
| ProductEditForm.FullUpdateReplaces | frontend/components/data-table.tsx:126-135 | the sheet's PUT sets all fourteen fields, so the backend's partial update replaces the stored row with the form |
| ProductEditForm.ResaveBlanksNulls | frontend/components/data-table.tsx:105-135 | saving a row unedited stores `""` in each of its null columns and keeps every other column |
| ProductEditForm.DataTable.constructor | frontend/components/data-table.tsx:81-99 | no selection; values and defaults are all `""` |
| ProductEditForm.DataTable.SelectRow | frontend/components/data-table.tsx:104-112 | re-selecting the current row changes nothing; any other row becomes the selection, and both values and defaults become that row, seeded |
| ProductEditForm.DataTable.SetField | frontend/components/data-table.tsx:229-233 | the typed string goes into that column only; the selection and the defaults are kept |
| ProductEditForm.DataTable.Submit | frontend/components/data-table.tsx:114-153 | no request unless the required columns are filled and a row with a non-zero id is selected; otherwise a PUT of the form to that id; on success the values become the defaults, the selection is cleared and the page refetches; on failure nothing changes |
| ProductAddForm.AddValidIff | frontend/components/add-product.tsx:21-36 | the add schema accepts exactly the all-string forms whose five required columns are non-empty |
| ProductAddForm.AddStricterThanEdit | frontend/components/add-product.tsx:21-36 | every form the add schema accepts, the edit schema accepts too; on all-string forms the two schemas agree |
| ProductAddForm.BlankRejected | frontend/components/add-product.tsx:43-58 | neither schema accepts the empty default form |
| ProductAddForm.ProfileForm.constructor | frontend/components/add-product.tsx:41-59 | the form starts with every field `""` |
| ProductAddForm.ProfileForm.SetField | frontend/components/add-product.tsx:122 | the typed string goes into that column only |
| ProductAddForm.ProfileForm.Submit | frontend/components/add-product.tsx:65-102 | no request unless the required columns are filled; otherwise a POST of the form to `/products`; success empties the form, failure keeps it |
| Brands.ApplyInput | frontend/app/brands/page.tsx:218-257 | the input shows the value it sent; no other field of the draft changes, nor does its id |
| Brands.ManageBrands.constructor | frontend/app/brands/page.tsx:49-54 | empty list, no draft, no mark, every dialog closed |
| Brands.ManageBrands.FetchBrands | frontend/app/brands/page.tsx:62-76 | GET `/brands`; on success the list is the fetched brands sorted by priority; on failure nothing changes |
| Brands.ManageBrands.HandleEdit | frontend/app/brands/page.tsx:78-106 | PUT `/brands/<id>` with the brand; on success a refetch runs and only the edit dialog closes; on failure the list and the flags are kept |
| Brands.ManageBrands.HandleAdd | frontend/app/brands/page.tsx:108-133 | POST `/brands` with the brand; on success a refetch runs and only the add dialog closes; on failure nothing changes |
| Brands.ManageBrands.HandleDelete | frontend/app/brands/page.tsx:135-159 | DELETE `/brands/<id>`; on success a refetch runs and only the delete dialog closes; on failure nothing changes |
| Brands.ManageBrands.SetDialogOpen | frontend/app/brands/page.tsx:185 | `onOpenChange` sets that dialog's flag and nothing else |
| Brands.ManageBrands.ClickAdd | frontend/app/brands/page.tsx:189-196 | the draft becomes a blank brand with priority 0 and no id |
| Brands.ManageBrands.ClickEdit | frontend/app/brands/page.tsx:290-292 | the draft becomes the clicked row |
| Brands.ManageBrands.ClickDelete | frontend/app/brands/page.tsx:370-372 | the mark becomes the row's id, including a missing one |
| Brands.ManageBrands.EditDraft | frontend/app/brands/page.tsx:221-256 | the draft takes the input, field by field |
| Brands.ManageBrands.SubmitAdd | frontend/app/brands/page.tsx:210-214 | nothing without a draft; otherwise exactly what adding the draft does |
| Brands.ManageBrands.SubmitEdit | frontend/app/brands/page.tsx:306-310 | nothing without a draft; otherwise exactly what saving the draft under its own id does |
| Brands.ManageBrands.ConfirmDelete | frontend/app/brands/page.tsx:388-392 | nothing while the mark is `null`; a stored `0` or `undefined` passes the guard and is sent |
| Categories.ApplyInput | frontend/app/categories/page.tsx:218-257 | the input shows the value it sent; no other field of the draft changes, nor does its id |
| Categories.ManageCategories.constructor | frontend/app/categories/page.tsx:49-54 | empty list, no draft, no mark, every dialog closed |
| Categories.ManageCategories.FetchCategories | frontend/app/categories/page.tsx:62-76 | GET `/categories`; on success the list is the fetched categories sorted by priority; on failure nothing changes |
| Categories.ManageCategories.HandleEdit | frontend/app/categories/page.tsx:78-106 | PUT `/categories/<id>`; on success a refetch runs and only the edit dialog closes; on failure nothing changes |
| Categories.ManageCategories.HandleAdd | frontend/app/categories/page.tsx:108-133 | POST `/categories`; on success a refetch runs and only the add dialog closes; on failure nothing changes |
| Categories.ManageCategories.HandleDelete | frontend/app/categories/page.tsx:135-159 | DELETE `/categories/<id>`; on success a refetch runs and only the delete dialog closes; on failure nothing changes |
| Categories.ManageCategories.SetDialogOpen | frontend/app/categories/page.tsx:185 | `onOpenChange` sets that dialog's flag and nothing else |
| Categories.ManageCategories.ClickAdd | frontend/app/categories/page.tsx:189-196 | the draft becomes a blank category with priority 0 and no id |
| Categories.ManageCategories.ClickEdit | frontend/app/categories/page.tsx:290-292 | the draft becomes the clicked row |
| Categories.ManageCategories.ClickDelete | frontend/app/categories/page.tsx:370-372 | the mark becomes the row's id, including a missing one |
| Categories.ManageCategories.EditDraft | frontend/app/categories/page.tsx:221-256 | the draft takes the input, field by field |
| Categories.ManageCategories.SubmitAdd | frontend/app/categories/page.tsx:210-214 | nothing without a draft; otherwise exactly what adding the draft does |
| Categories.ManageCategories.SubmitEdit | frontend/app/categories/page.tsx:306-310 | nothing without a draft; otherwise exactly what saving the draft does |
| Categories.ManageCategories.ConfirmDelete | frontend/app/categories/page.tsx:388-392 | nothing while the mark is `null`; a stored `0` or `undefined` passes and is sent |
| Subcategories.ApplyInput | frontend/app/sub-categories/page.tsx:160-163 | the input shows the value it sent; no other field changes, nor does the id |
| Subcategories.ManageSubcategories.constructor | frontend/app/sub-categories/page.tsx:47-58 | empty list, no selection, no mark, a blank add draft with priority 0, every dialog closed |
| Subcategories.ManageSubcategories.FetchSubcategories | frontend/app/sub-categories/page.tsx:64-76 | GET `/subcategories`; on success the list is the fetched rows sorted by priority; on failure nothing changes |
| Subcategories.ManageSubcategories.HandleAddSubcategory | frontend/app/sub-categories/page.tsx:78-94 | POST of the add draft; on success the add dialog closes and a refetch runs, and the draft is not cleared; on failure nothing changes |
| Subcategories.ManageSubcategories.HandleEditSubcategory | frontend/app/sub-categories/page.tsx:96-113 | nothing without a selection; otherwise a PUT of the selection to its id; on success the edit dialog closes and a refetch runs |
| Subcategories.ManageSubcategories.HandleDeleteSubcategory | frontend/app/sub-categories/page.tsx:115-128 | nothing while the mark is falsy (`null`, `undefined` or `0`); otherwise a DELETE of that id; on success the delete dialog closes and a refetch runs |
| Subcategories.ManageSubcategories.SetDialogOpen | frontend/app/sub-categories/page.tsx:152-154 | that dialog's flag is set and nothing else changes |
| Subcategories.ManageSubcategories.ClickEdit | frontend/app/sub-categories/page.tsx:186 | the selection becomes a copy of the row and the edit dialog opens |
| Subcategories.ManageSubcategories.ClickDelete | frontend/app/sub-categories/page.tsx:201 | the mark becomes the row's id and the delete dialog opens |
| Subcategories.ManageSubcategories.EditNew | frontend/app/sub-categories/page.tsx:160-163 | the add draft takes the input |
| Subcategories.ManageSubcategories.EditSelected | frontend/app/sub-categories/page.tsx:192-195 | the selection takes the input |
| Clients.ApplyInput | frontend/app/clients/page.tsx:158-160 | the input shows the value it sent; no other field changes, nor does the id |
| Clients.ManageClients.constructor | frontend/app/clients/page.tsx:46-56 | empty list, no selection, no mark, a blank add draft with priority 1, every dialog closed |
| Clients.ManageClients.FetchClients | frontend/app/clients/page.tsx:80-92 | GET `/clients`; on success the list is the fetched rows sorted by priority; on failure nothing changes |
| Clients.ManageClients.HandleAddClient | frontend/app/clients/page.tsx:62-78 | POST of the add draft; on success the add dialog closes and a refetch runs, and the draft is not cleared; on failure nothing changes |
| Clients.ManageClients.HandleEditClient | frontend/app/clients/page.tsx:94-111 | nothing without a selection; otherwise a PUT of the selection to its id; on success the edit dialog closes and a refetch runs |
| Clients.ManageClients.HandleDeleteClient | frontend/app/clients/page.tsx:113-126 | nothing while the mark is falsy; otherwise a DELETE of that id; on success the delete dialog closes and a refetch runs |
| Clients.ManageClients.SetDialogOpen | frontend/app/clients/page.tsx:150-152 | that dialog's flag is set and nothing else changes |
| Clients.ManageClients.ClickEdit | frontend/app/clients/page.tsx:188 | the selection becomes a copy of the row and the edit dialog opens |
| Clients.ManageClients.ClickDelete | frontend/app/clients/page.tsx:205 | only the mark changes, to the row's id |
| Clients.ManageClients.EditNew | frontend/app/clients/page.tsx:158-160 | the add draft takes the input |
| Clients.ManageClients.EditSelected | frontend/app/clients/page.tsx:194-196 | the selection takes the input |
| ProjectRecord.Set | frontend/app/add-project/page.tsx:98 | the spread-and-override writes one field and keeps the other four |
| ProjectRecord.SetLaws | frontend/app/add-project/page.tsx:98-118 | typing a field's current value back changes nothing; a later edit of a field overrides an earlier one |
| Projects.EditRows | frontend/app/projects/page.tsx:163-172 | the row count is kept; rows whose id is not `===` to the edited id are unchanged; matching rows get the new value in that field only |
| Projects.EditChangesOneRow | frontend/app/projects/page.tsx:164-170 | with distinct ids, an edit typed into row `k` changes only row `k`, in that one field |
| Projects.MissingIdsEditTogether | frontend/app/projects/page.tsx:165-166 | an edit typed into a row without an id reaches every row without an id |
| Projects.ManageProjects.constructor | frontend/app/projects/page.tsx:50-52 | empty list, no mark, dialog closed |
| Projects.ManageProjects.FetchProjects | frontend/app/projects/page.tsx:59-76 | GET `/projects`; on success the list is the fetched rows sorted by `id \|\| 0`; on failure nothing changes |
| Projects.ManageProjects.EditField | frontend/app/projects/page.tsx:163-172 | the list becomes the in-place edit of every row matching the typed-into row's id |
| Projects.ManageProjects.HandleUpdate | frontend/app/projects/page.tsx:78-98 | PUT `/projects/<id>` with the row; a refetch runs only on success; no dialog or mark changes |
| Projects.ManageProjects.HandleDelete | frontend/app/projects/page.tsx:100-119 | nothing while the mark is falsy; otherwise a DELETE of that id; on success the dialog closes and a refetch runs |
| Projects.ManageProjects.ClickDelete | frontend/app/projects/page.tsx:237 | only the mark changes, to the row's id |
| Projects.ManageProjects.SetDeleteDialogOpen | frontend/app/projects/page.tsx:233 | only the dialog flag changes |
| AddProject.AddProjectPage.constructor | frontend/app/add-project/page.tsx:32-38 | every field starts `""` |
| AddProject.AddProjectPage.EditField | frontend/app/add-project/page.tsx:98-118 | the draft takes the typed value in that one field |
| AddProject.AddProjectPage.HandleSubmit | frontend/app/add-project/page.tsx:42-69 | POST `/projects` with the whole draft; on success every field is `""` again; on failure the draft is kept |

## Left out

- Networking, JSON and status codes: each awaited `fetch` becomes a `Response` parameter. A non-2xx status, a transport error and an undecodable body all count as `Fail`, because the code handles them all the same way.
- Concurrency. The front end fires refetches without awaiting them, and two requests can finish in either order. The model runs each handler and its refetch to completion, in program order.
- Toasts, `console.error`, rendering, the sidebar, breadcrumbs, skeleton rows, the search text and the two placeholder theme selects on the products page. None of them changes modelled state.
- Radix dialog internals. A trigger's `onClick` and its `onOpenChange(true)` are modelled as separate steps (`ClickEdit` and `SetDialogOpen`). Every row renders its own dialog bound to the one shared flag; the model keeps just the flag.
- The products page unmounts the table while loading (`loading ? skeleton : <DataTable/>`), so the sheet's state starts over after each fetch. `ProductEditForm.DataTable` is modelled on its own and does not restart.
- `ProductEditForm.DataTable.SelectRow` compares the clicked row by value, not by object identity as React does. The two agree until a refetch, and after a refetch the table is re-created anyway.
- `Number(...)` and `parseInt(...)` on the priority inputs can produce `NaN`, and `|| ""` / `|| 0` change the displayed value. The model gives the priority inputs integers and does not model display.
- `Brands.ManageBrands.EditDraft`, `Categories.ManageCategories.EditDraft`, `Subcategories.ManageSubcategories.EditSelected`, `Clients.ManageClients.EditSelected`: these require an existing draft. The inputs live in dialogs whose opening button sets one, and the `{ ...prev!, ... }` spread of `null` is not modelled.
- `ProductService.ProductTable.GetAllProducts`: only the names of the failing query parameters are kept from FastAPI's 422 body; its messages and the 422 for a non-integer query string are not modelled, since the parameters are typed integers.
- `ProductService.ProductTable.GetProductsByCode`: the order of the result is not stated, because the query has no `ORDER BY`. The model happens to return ascending ids.
- VARCHAR(255) lengths, SQL typing and the database session. The table is a map from id to row.
- The id sequence is modelled as a counter that moves past every inserted id. Deleted ids are not reused.
- The backend routes for brands, categories, sub-categories, clients and projects are not part of this model; only their requests are.
- The file-upload component, the login/home page and the column definitions are outside the modelled core.
- `Projects.ManageProjects.HandleUpdate` sends the whole row, id included, as the front end does. What the projects backend does with it is not part of this model.

## Notes

- The edit sheet calls `reset(sanitizedRow)` when a row is selected, and that also replaces the form's default values. So the bare `reset()` after a successful update restores the last seeded row, not the empty defaults (`ProductEditForm.DataTable.Submit`).
- zod's `object()` drops keys that are not in the schema. The `id` that seeding puts into the form therefore never reaches the PUT body.
- Brands and categories guard deletion with `deleteId !== null`. A row without an id therefore sends `DELETE /brands/undefined`. The other three screens use a truthiness test and send nothing (`Screen.TruthyIsStricter`).
- Past the last page, the products heading reads "Showing 16–15 Products", and the Next button stays enabled (`ProductsPage.PageAgainstTable`).
