/**
 * `ContactService.create`: a validated insert into the contact table,
 * owned by the authenticated user.
 */
module Contacts {
  import opened Wrappers
  import opened Exceptions
  import opened ContactValidation
  import opened Store

  /** What `create` returns: the stored contact without its owner. */
  datatype ContactResponse = ContactResponse(
    id: nat, firstName: string, lastName: Option<string>, email: Option<string>, phone: Option<string>)

  /** The response for a stored contact. */
  function ResponseOf(contact: Contact): (r: ContactResponse)
    ensures r.id == contact.id && r.firstName == contact.firstName && r.lastName == contact.lastName
    ensures r.email == contact.email && r.phone == contact.phone
  {
    ContactResponse(contact.id, contact.firstName, contact.lastName, contact.email, contact.phone)
  }

  class ContactService {
    const prisma: Database
    /** Zod's email-shape check, left uninterpreted. */
    const isEmail: string -> bool

    constructor (prisma: Database, isEmail: string -> bool)
      ensures this.prisma == prisma && this.isEmail == isEmail
    {
      this.prisma := prisma;
      this.isEmail := isEmail;
    }

    /**
     * `create(user, request)`: validate; then store one new contact with the
     * request's fields and the authenticated user's username as owner (the
     * username is spread last, so no request field can override it); the
     * store assigns the id.
     */
    method Create(user: User, request: CreateContactPayload) returns (r: Result<ContactResponse, Failure>)
      requires prisma.Valid() && prisma.IsCurrent(user)
      modifies prisma
      ensures prisma.Valid()
      ensures prisma.users == old(prisma.users)
      ensures !CreateValid(request, isEmail) ==>
        && r == Failure(ValidateCreate(request, isEmail).error)
        && prisma.contacts == old(prisma.contacts) && prisma.nextContactId == old(prisma.nextContactId)
      ensures CreateValid(request, isEmail) ==>
        var id := old(prisma.nextContactId);
        var contact := Contact(id, request.firstName.value, request.lastName, request.email, request.phone, user.username);
        && id !in old(prisma.contacts)
        && prisma.contacts == old(prisma.contacts)[id := contact]
        && prisma.nextContactId == id + 1
        && r == Success(ResponseOf(contact))
    {
      var validated := ValidateCreate(request, isEmail);
      if validated.Failure? {
        return Failure(validated.error);
      }
      var createRequest := validated.value;
      var id := prisma.nextContactId;
      var contact := Contact(
        id, createRequest.firstName, createRequest.lastName, createRequest.email, createRequest.phone,
        user.username);
      prisma.contacts := prisma.contacts[id := contact];
      prisma.nextContactId := id + 1;
      r := Success(ResponseOf(contact));
    }
  }
}
