/**
 * The backend's persistent entities, with the defaults their classes declare.
 * An id is `None` until the store assigns one. Creation and update timestamps
 * are not part of this model.
 */
module Entities {
  import opened Wrappers

  datatype Category = Category(id: Option<int>, name: string, description: Option<string>, isActive: bool)

  datatype Book = Book(
    id: Option<int>,
    title: string,
    author: string,
    isbn: Option<string>,
    description: Option<string>,
    category: Option<Category>,
    published: bool)

  datatype ApiEndpoint = ApiEndpoint(
    id: Option<int>,
    name: string,
    description: Option<string>,
    httpMethod: string,
    path: string,
    requiresAuth: bool,
    isActive: bool)

  datatype Role = USER | ADMIN

  datatype User = User(id: Option<int>, username: string, email: string, password: string, role: Role)

  /** `new Book(title, author)`: no id, no category, not published. */
  function NewBook(title: string, author: string): (b: Book)
    ensures b.id == None && b.title == title && b.author == author && !b.published && b.category == None
  {
    Book(None, title, author, None, None, None, false)
  }

  /**
   * `new ApiEndpoint(name, description, method, path, requiresAuth)`: no id, the
   * given fields, and active by the field's default.
   */
  function NewApiEndpoint(name: string, description: Option<string>, httpMethod: string, path: string, requiresAuth: bool): (e: ApiEndpoint)
    ensures e.id == None && e.isActive
    ensures e.name == name && e.description == description && e.httpMethod == httpMethod
    ensures e.path == path && e.requiresAuth == requiresAuth
  {
    ApiEndpoint(None, name, description, httpMethod, path, requiresAuth, true)
  }

  function BookId(b: Book): Option<int> { b.id }
  function WithBookId(b: Book, id: int): Book { b.(id := Some(id)) }
  function CategoryId(c: Category): Option<int> { c.id }
  function WithCategoryId(c: Category, id: int): Category { c.(id := Some(id)) }
  function EndpointId(e: ApiEndpoint): Option<int> { e.id }
  function WithEndpointId(e: ApiEndpoint, id: int): ApiEndpoint { e.(id := Some(id)) }
  function UserId(u: User): Option<int> { u.id }
  function WithUserId(u: User, id: int): User { u.(id := Some(id)) }
}
